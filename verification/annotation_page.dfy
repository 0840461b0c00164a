/** The client-side logic of the React annotation page
    (`frontend/src/components/ProjectAnnotationPage.tsx`): which selection
    modes are offered, when the simple model is retrained, how a label is
    applied and undone through the history stack, the digit-key shortcuts and
    the split of the displayed text at the context limit.

    JavaScript semantics that matter here are written out: strings as UTF-16
    code units, truthiness of optional strings, `slice` with negative or
    out-of-range indices, and `%` by zero yielding `NaN`. */
module AnnotationPage {
  import opened Base

  // ---------------------------------------------------------------------
  // JavaScript `slice`
  // ---------------------------------------------------------------------

  /** The index normalisation of `Array.prototype.slice` and
      `String.prototype.slice`: negative indices count from the end, and the
      result is clamped to `[0, len]`. */
  function RelativeIndex(k: int, len: nat): (r: nat)
    ensures r <= len
    ensures 0 <= k ==> r == if k <= len then k else len
    ensures k < 0 ==> r == if -k <= len then len + k else 0
  {
    if k < 0 then (if len + k < 0 then 0 else len + k)
    else if k > len then len
    else k
  }

  /** `s.slice(start, end)`. */
  function Slice<T>(s: seq<T>, start: int, end: int): (r: seq<T>)
    ensures |r| <= |s|
  {
    var from := RelativeIndex(start, |s|);
    var to := RelativeIndex(end, |s|);
    if from < to then s[from..to] else []
  }

  /** `s.slice(start)`. */
  function SliceFrom<T>(s: seq<T>, start: int): (r: seq<T>)
    ensures |r| <= |s|
  {
    s[RelativeIndex(start, |s|)..]
  }

  /** `null` used as a number converts to 0. */
  function NumberOrZero(n: Option<int>): int
  {
    match n
    case None => 0
    case Some(k) => k
  }

  /** JavaScript truthiness of an optional string: defined and non-empty. */
  predicate Truthy(s: Option<string>)
  {
    s.Some? && s.value != ""
  }

  // ---------------------------------------------------------------------
  // JavaScript strings
  // ---------------------------------------------------------------------

  /** A UTF-16 code unit: what a JavaScript string is a sequence of, and
      what `String.prototype.slice` counts. */
  newtype CodeUnit = x: int | 0 <= x < 0x1_0000

  /** The UTF-16 encoding of one character: a single unit inside the Basic
      Multilingual Plane, a surrogate pair above U+FFFF. */
  function EncodeChar(c: char): (r: seq<CodeUnit>)
    ensures |r| == if c as int < 0x1_0000 then 1 else 2
    ensures |r| == 1 ==> r[0] as int == c as int
    ensures |r| == 2 ==> 0xD800 <= r[0] as int < 0xDC00 <= r[1] as int < 0xE000
    ensures |r| == 2 ==> 0x1_0000 + (r[0] as int - 0xD800) * 0x400 + (r[1] as int - 0xDC00) == c as int
  {
    var n := c as int;
    if n < 0x1_0000 then [n as CodeUnit]
    else [(0xD800 + (n - 0x1_0000) / 0x400) as CodeUnit, (0xDC00 + (n - 0x1_0000) % 0x400) as CodeUnit]
  }

  /** The JavaScript string holding a text: its UTF-16 code units. */
  function Utf16(s: string): (r: seq<CodeUnit>)
    ensures |s| <= |r| <= 2 * |s|
  {
    if s == [] then [] else EncodeChar(s[0]) + Utf16(s[1..])
  }

  /** Encoding distributes over concatenation. */
  lemma {:induction false} Utf16Append(a: string, b: string)
    ensures Utf16(a + b) == Utf16(a) + Utf16(b)
    decreases |a|
  {
    if a == [] {
      assert a + b == b;
    } else {
      assert (a + b)[0] == a[0];
      assert (a + b)[1..] == a[1..] + b;
      Utf16Append(a[1..], b);
    }
  }

  /** Reading a JavaScript string back as text: `None` on a lone surrogate,
      which no text contains. */
  function DecodeUtf16(u: seq<CodeUnit>): (r: Option<string>)
    decreases |u|
  {
    if u == [] then Some([])
    else if 0xD800 <= u[0] as int < 0xDC00 then
      if |u| >= 2 && 0xDC00 <= u[1] as int < 0xE000 then
        var c := (0x1_0000 + (u[0] as int - 0xD800) * 0x400 + (u[1] as int - 0xDC00)) as char;
        match DecodeUtf16(u[2..])
        case None => None
        case Some(rest) => Some([c] + rest)
      else None
    else if 0xDC00 <= u[0] as int < 0xE000 then None
    else
      match DecodeUtf16(u[1..])
      case None => None
      case Some(rest) => Some([u[0] as int as char] + rest)
  }

  /** Encoding loses nothing: every text is read back from its JavaScript
      string. */
  lemma {:induction false} Utf16RoundTrip(s: string)
    ensures DecodeUtf16(Utf16(s)) == Some(s)
    decreases |s|
  {
    if s != [] {
      var e := EncodeChar(s[0]);
      var u := Utf16(s);
      assert u == e + Utf16(s[1..]);
      Utf16RoundTrip(s[1..]);
      if |e| == 1 {
        assert u[1..] == Utf16(s[1..]);
      } else {
        assert u[2..] == Utf16(s[1..]);
      }
      assert s == [s[0]] + s[1..];
    }
  }

  // ---------------------------------------------------------------------
  // Displayed text
  // ---------------------------------------------------------------------

  /** The two spans of the annotation frame: the text up to `limit` and the
      out-of-context rest, cut as `slice` cuts the JavaScript string, in
      UTF-16 code units. A cut inside a surrogate pair leaves half of the
      pair in each span. */
  function SplitAtLimit(text: string, limit: Option<int>): (r: (seq<CodeUnit>, seq<CodeUnit>))
    ensures |r.0| <= |Utf16(text)| && r.0 == Utf16(text)[..|r.0|]
    ensures |r.1| <= |Utf16(text)| && r.1 == Utf16(text)[|Utf16(text)| - |r.1|..]
  {
    var units := Utf16(text);
    (Slice(units, 0, NumberOrZero(limit)), SliceFrom(units, NumberOrZero(limit)))
  }

  /** The two spans together always show the element's text exactly once,
      whatever the limit: `null`, negative, inside or past the text. */
  lemma SplitAtLimitRecomposes(text: string, limit: Option<int>)
    ensures SplitAtLimit(text, limit).0 + SplitAtLimit(text, limit).1 == Utf16(text)
    ensures 0 <= NumberOrZero(limit) <= |Utf16(text)| ==> |SplitAtLimit(text, limit).0| == NumberOrZero(limit)
  {
    var units := Utf16(text);
    var k := RelativeIndex(NumberOrZero(limit), |units|);
    if 0 < k {
      assert units[0..k] + units[k..] == units;
    } else {
      assert units[k..] == units;
    }
  }

  /** A limit that falls between two characters, counted in code units,
      splits the text into its two parts. */
  lemma SplitAtCharBoundary(text: string, k: nat)
    requires k <= |text|
    ensures SplitAtLimit(text, Some(|Utf16(text[..k])|)) == (Utf16(text[..k]), Utf16(text[k..]))
  {
    assert text == text[..k] + text[k..];
    Utf16Append(text[..k], text[k..]);
    SplitAtLimitRecomposes(text, Some(|Utf16(text[..k])|));
  }

  /** Outside the Basic Multilingual Plane a character takes two units: on
      `"😀abc"` a limit of 2 keeps only the emoji, and a limit of 1 cuts the
      emoji's surrogate pair in half. */
  lemma SplitCountsCodeUnits()
    ensures SplitAtLimit("\U{1F600}abc", Some(2)) == (Utf16("\U{1F600}"), Utf16("abc"))
    ensures SplitAtLimit("\U{1F600}abc", Some(1)) == ([0xD83D], [0xDE00] + Utf16("abc"))
  {
    var t := "\U{1F600}abc";
    assert t[..1] == "\U{1F600}" && t[1..] == "abc";
    SplitAtCharBoundary(t, 1);
    assert EncodeChar('\U{1F600}') == [0xD83D, 0xDE00];
    assert Utf16(t) == [0xD83D, 0xDE00] + Utf16("abc") by {
      assert t == "\U{1F600}" + "abc";
      Utf16Append("\U{1F600}", "abc");
      assert Utf16("\U{1F600}") == EncodeChar('\U{1F600}') + Utf16([]);
    }
    var u := Utf16(t);
    assert u[0..1] == [0xD83D];
    assert u[1..] == [0xDE00] + Utf16("abc");
  }

  // ---------------------------------------------------------------------
  // History: apply a label, go back
  // ---------------------------------------------------------------------

  /** The annotation request `addAnnotation(elementId, tag)`. */
  datatype AddAnnotation = AddAnnotation(elementId: string, tag: string)

  datatype Applied = Applied(history: seq<string>, request: Option<AddAnnotation>)

  /** `applyLabel(label, elementId)`: nothing happens without a (non-empty)
      element id; otherwise the id is pushed on the history and the
      annotation is sent. */
  function ApplyLabel(history: seq<string>, tag: string, elementId: Option<string>): (r: Applied)
    ensures r.request.Some? <==> Truthy(elementId)
    ensures Truthy(elementId) ==> r.history == history + [elementId.value]
    ensures Truthy(elementId) ==> r.request.value == AddAnnotation(elementId.value, tag)
    ensures !Truthy(elementId) ==> r.history == history
  {
    if Truthy(elementId) then
      Applied(history + [elementId.value], Some(AddAnnotation(elementId.value, tag)))
    else Applied(history, None)
  }

  /** The back button: its link targets `history[history.length - 1]` and
      its click keeps `history.slice(0, -1)`. On an empty history the index
      is `undefined`, so the link renders `/projects/<name>/annotate/undefined`;
      `target == None` stands for that link. */
  datatype BackLink = BackLink(target: Option<string>, history: seq<string>)

  function Back(history: seq<string>): (r: BackLink)
    ensures |history| == 0 ==> r == BackLink(None, [])
    ensures |history| > 0 ==> r.target == Some(history[|history| - 1])
    ensures |history| > 0 ==> r.history + [r.target.value] == history
  {
    var target := if |history| > 0 then Some(history[|history| - 1]) else None;
    BackLink(target, Slice(history, 0, -1))
  }

  /** Back undoes an applied label: it returns to the element just annotated
      and restores the history as it was before. */
  lemma BackUndoesApply(history: seq<string>, tag: string, elementId: string)
    requires elementId != ""
    ensures Back(ApplyLabel(history, tag, Some(elementId)).history) == BackLink(Some(elementId), history)
  {
    var h := history + [elementId];
    assert Slice(h, 0, -1) == h[0..|h| - 1];
    assert h[0..|h| - 1] == history;
  }

  // ---------------------------------------------------------------------
  // Keyboard shortcuts
  // ---------------------------------------------------------------------

  /** The character of a decimal digit. */
  function DigitChar(d: nat): char
    requires d < 10
  {
    (48 + d) as char
  }

  /** The codes of two different digit keys differ, whatever their prefix. */
  lemma KeyCodesDiffer(k: nat, m: nat)
    requires 1 <= k <= 9 && 1 <= m <= 9 && k != m
    ensures "Digit" + [DigitChar(k)] != "Digit" + [DigitChar(m)]
    ensures "Numpad" + [DigitChar(k)] != "Numpad" + [DigitChar(m)]
    ensures "Digit" + [DigitChar(k)] != "Numpad" + [DigitChar(m)]
    ensures "Numpad" + [DigitChar(k)] != "Digit" + [DigitChar(m)]
  {
    assert ("Digit" + [DigitChar(k)])[5] == DigitChar(k);
    assert ("Digit" + [DigitChar(m)])[5] == DigitChar(m);
    assert ("Numpad" + [DigitChar(k)])[6] == DigitChar(k);
    assert ("Numpad" + [DigitChar(m)])[6] == DigitChar(m);
  }

  /** Decimal rendering of a non-negative integer, as `"" + n` in JavaScript. */
  function NatToString(n: nat): string
  {
    if n < 10 then [DigitChar(n)] else NatToString(n / 10) + [DigitChar(n % 10)]
  }

  /** The `forEach` of `handleKeyboardEvents` from label index `i` on: the
      labels applied, in order, for a key event with code `code`. */
  function MatchingLabels(labels: seq<string>, code: string, i: nat): (r: seq<string>)
    requires i <= |labels|
    ensures |r| <= |labels| - i
    ensures forall x :: x in r ==> x in labels[i..]
    decreases |labels| - i
  {
    if i == |labels| then []
    else
      var hit := code == "Digit" + NatToString(i + 1) || code == "Numpad" + NatToString(i + 1);
      (if hit then [labels[i]] else []) + MatchingLabels(labels, code, i + 1)
  }

  /** The listener is only registered for 1 to 9 labels. */
  predicate ShortcutsEnabled(labels: seq<string>)
  {
    0 < |labels| < 10
  }

  /** The labels a `keydown` event applies. */
  function OnKeyDown(labels: seq<string>, code: string): (r: seq<string>)
    ensures !ShortcutsEnabled(labels) ==> r == []
  {
    if ShortcutsEnabled(labels) then MatchingLabels(labels, code, 0) else []
  }

  /** With single-digit indices, a code matches at most the one index it names. */
  lemma {:induction false} MatchingLabelsSingle(labels: seq<string>, code: string, i: nat, k: nat)
    requires i <= |labels| < 10
    requires 1 <= k <= 9
    requires code == "Digit" + [DigitChar(k)] || code == "Numpad" + [DigitChar(k)]
    ensures MatchingLabels(labels, code, i) == if i < k <= |labels| then [labels[k - 1]] else []
    decreases |labels| - i
  {
    if i < |labels| {
      MatchingLabelsSingle(labels, code, i + 1, k);
      assert NatToString(i + 1) == [DigitChar(i + 1)];
      if i + 1 != k {
        KeyCodesDiffer(k, i + 1);
      }
    }
  }

  /** A code that names no digit applies nothing. */
  lemma {:induction false} MatchingLabelsNone(labels: seq<string>, code: string, i: nat)
    requires i <= |labels| < 10
    requires forall k :: 1 <= k <= 9 ==> code != "Digit" + [DigitChar(k)] && code != "Numpad" + [DigitChar(k)]
    ensures MatchingLabels(labels, code, i) == []
    decreases |labels| - i
  {
    if i < |labels| {
      MatchingLabelsNone(labels, code, i + 1);
      assert NatToString(i + 1) == [DigitChar(i + 1)];
    }
  }

  /** `Digit k` and `Numpad k` apply label `k - 1` for `1 <= k <= n`, exactly
      once; any other code applies nothing. */
  lemma KeyShortcuts(labels: seq<string>, code: string)
    requires ShortcutsEnabled(labels)
    ensures forall k :: 1 <= k <= |labels| ==>
              OnKeyDown(labels, "Digit" + [DigitChar(k)]) == [labels[k - 1]]
              && OnKeyDown(labels, "Numpad" + [DigitChar(k)]) == [labels[k - 1]]
    ensures (forall k :: 1 <= k <= |labels| ==> code != "Digit" + [DigitChar(k)] && code != "Numpad" + [DigitChar(k)])
            ==> OnKeyDown(labels, code) == []
  {
    forall k | 1 <= k <= |labels|
      ensures OnKeyDown(labels, "Digit" + [DigitChar(k)]) == [labels[k - 1]]
      ensures OnKeyDown(labels, "Numpad" + [DigitChar(k)]) == [labels[k - 1]]
    {
      MatchingLabelsSingle(labels, "Digit" + [DigitChar(k)], 0, k);
      MatchingLabelsSingle(labels, "Numpad" + [DigitChar(k)], 0, k);
    }
    if forall k :: 1 <= k <= |labels| ==> code != "Digit" + [DigitChar(k)] && code != "Numpad" + [DigitChar(k)] {
      if exists k :: 1 <= k <= 9 && (code == "Digit" + [DigitChar(k)] || code == "Numpad" + [DigitChar(k)]) {
        var k :| 1 <= k <= 9 && (code == "Digit" + [DigitChar(k)] || code == "Numpad" + [DigitChar(k)]);
        MatchingLabelsSingle(labels, code, 0, k);
      } else {
        MatchingLabelsNone(labels, code, 0);
      }
    }
  }

  /** Applying every label a key event selects, in order. */
  function ApplyAll(history: seq<string>, labels: seq<string>, elementId: Option<string>): (r: seq<string>)
    decreases |labels|
  {
    if |labels| == 0 then history
    else ApplyAll(ApplyLabel(history, labels[0], elementId).history, labels[1..], elementId)
  }

  /** A shortcut key annotates the current element once: the history grows by
      exactly that element. */
  lemma ShortcutPushesOnce(labels: seq<string>, k: nat, history: seq<string>, elementId: string)
    requires ShortcutsEnabled(labels)
    requires 1 <= k <= |labels|
    requires elementId != ""
    ensures ApplyAll(history, OnKeyDown(labels, "Digit" + [DigitChar(k)]), Some(elementId)) == history + [elementId]
  {
    KeyShortcuts(labels, "Digit" + [DigitChar(k)]);
  }

  // ---------------------------------------------------------------------
  // Selection modes and the simple-model retrain latch
  // ---------------------------------------------------------------------

  /** A trained simple model as listed by the project state. */
  datatype ModelInfo = ModelInfo(model: string, params: string)

  /** The part of the fetched project state this page reads. */
  datatype ProjectState = ProjectState(
    simpleModels: map<string, map<string, ModelInfo>>,
    methods: seq<string>,
    methodsMin: Option<seq<string>>,
    labels: map<string, seq<string>>)

  /** `currentModel`: the simple model of the logged-in user on the current
      scheme, when all of user, scheme and project are there. */
  function CurrentModel(user: Option<string>, scheme: Option<string>, project: Option<ProjectState>): (r: Option<ModelInfo>)
    ensures r.Some? <==> (user.Some? && Truthy(scheme) && project.Some?
                          && user.value in project.value.simpleModels
                          && scheme.value in project.value.simpleModels[user.value])
    ensures r.Some? ==> r.value == project.value.simpleModels[user.value][scheme.value]
  {
    if user.Some? && Truthy(scheme) && project.Some?
       && user.value in project.value.simpleModels
       && scheme.value in project.value.simpleModels[user.value]
    then Some(project.value.simpleModels[user.value][scheme.value])
    else None
  }

  /** The model found depends only on the logged-in user's own entry: the
      models other users trained play no part. */
  lemma CurrentModelIgnoresOthers(user: string, scheme: Option<string>, p: ProjectState,
                                  other: string, models: map<string, ModelInfo>)
    requires other != user
    ensures CurrentModel(Some(user), scheme, Some(p))
            == CurrentModel(Some(user), scheme, Some(p.(simpleModels := p.simpleModels[other := models])))
  {
  }

  /** `availableModes`: all methods with a model, the reduced list without
      (an empty list when the project does not provide one). */
  function AvailableModes(user: Option<string>, scheme: Option<string>, project: Option<ProjectState>): (r: seq<string>)
    ensures CurrentModel(user, scheme, project).Some? ==> r == project.value.methods
    ensures CurrentModel(user, scheme, project).None? && project.Some? && project.value.methodsMin.Some? ==>
              r == project.value.methodsMin.value
    ensures CurrentModel(user, scheme, project).None? && (project.None? || project.value.methodsMin.None?) ==>
              r == []
  {
    if user.Some? && Truthy(scheme) && project.Some?
       && user.value in project.value.simpleModels
       && scheme.value in project.value.simpleModels[user.value]
    then project.value.methods
    else if project.Some? && project.value.methodsMin.Some? then project.value.methodsMin.value
    else []
  }

  /** `history.length % freq == 0` in JavaScript: for a non-negative length the
      remainder agrees with the mathematical one modulo `|freq|`, and `% 0` is
      `NaN`, which equals nothing. */
  predicate AtMultiple(historyLength: nat, freq: int)
  {
    freq != 0 && historyLength % (if freq < 0 then -freq else freq) == 0
  }

  /** One run of the retrain effect: the latch after it and the model passed
      to `updateSimpleModel`, if called. Both tests read the latch of the
      render that scheduled the effect. */
  datatype EffectRun = EffectRun(latch: bool, retrain: Option<ModelInfo>)

  function RetrainEffect(latch: bool, model: Option<ModelInfo>, historyLength: nat, freq: int): (r: EffectRun)
    ensures r.retrain.Some? <==> !latch && model.Some? && AtMultiple(historyLength, freq)
    ensures r.retrain.Some? ==> r.retrain == model && r.latch
    ensures latch && !AtMultiple(historyLength, freq) ==> !r.latch
    ensures r.latch != latch ==> r.retrain.Some? || !AtMultiple(historyLength, freq)
  {
    var fire := !latch && model.Some? && AtMultiple(historyLength, freq);
    var latch1 := if fire then true else latch;
    var latch2 := if latch && !AtMultiple(historyLength, freq) then false else latch1;
    EffectRun(latch2, if fire then model else None)
  }

  /** The inputs of one effect run. */
  datatype Render = Render(historyLength: nat, model: Option<ModelInfo>)

  /** The latch before run `i` of a sequence of effect runs. */
  function LatchBefore(latch0: bool, runs: seq<Render>, freq: int, i: nat): bool
    requires i <= |runs|
  {
    if i == 0 then latch0
    else RetrainEffect(LatchBefore(latch0, runs, freq, i - 1), runs[i - 1].model, runs[i - 1].historyLength, freq).latch
  }

  /** Whether run `i` calls `updateSimpleModel`. */
  predicate Fires(latch0: bool, runs: seq<Render>, freq: int, i: nat)
    requires i < |runs|
  {
    RetrainEffect(LatchBefore(latch0, runs, freq, i), runs[i].model, runs[i].historyLength, freq).retrain.Some?
  }

  /** Once fired, the latch stays set while the history length stays on a
      multiple of the frequency. */
  lemma {:induction false} LatchHeld(latch0: bool, runs: seq<Render>, freq: int, i: nat, j: nat)
    requires i < j <= |runs|
    requires Fires(latch0, runs, freq, i)
    requires forall k :: i < k < j ==> AtMultiple(runs[k].historyLength, freq)
    ensures LatchBefore(latch0, runs, freq, j)
    decreases j
  {
    if j > i + 1 {
      LatchHeld(latch0, runs, freq, i, j - 1);
    }
  }

  /** At most one retrain per multiple: between two calls of
      `updateSimpleModel` some run saw a history length off the multiple. */
  lemma RetrainOncePerMultiple(latch0: bool, runs: seq<Render>, freq: int, i: nat, j: nat)
    requires i < j < |runs|
    requires Fires(latch0, runs, freq, i) && Fires(latch0, runs, freq, j)
    ensures exists k :: i < k < j && !AtMultiple(runs[k].historyLength, freq)
  {
    if forall k :: i < k < j ==> AtMultiple(runs[k].historyLength, freq) {
      LatchHeld(latch0, runs, freq, i, j);
    }
  }

  /** Re-rendering without a new annotation never retrains twice: with a
      constant history length there is at most one call. */
  lemma RetrainOnceWhileIdle(latch0: bool, runs: seq<Render>, freq: int, i: nat, j: nat)
    requires i < j < |runs|
    requires forall k :: 0 <= k < |runs| ==> runs[k].historyLength == runs[0].historyLength
    ensures !(Fires(latch0, runs, freq, i) && Fires(latch0, runs, freq, j))
  {
    if Fires(latch0, runs, freq, i) {
      assert AtMultiple(runs[i].historyLength, freq);
      assert forall k :: i < k < j ==> runs[k].historyLength == runs[i].historyLength;
      LatchHeld(latch0, runs, freq, i, j);
    }
  }
}

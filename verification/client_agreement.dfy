/** The two clients side by side: the Streamlit client
    (`activetigger/frontend.py`) and the React annotation page
    (`frontend/src/components/ProjectAnnotationPage.tsx`) read the same
    project state to decide whether the user has a simple model and which
    selection modes to offer. */
module ClientAgreement {
  import opened Base
  import Session
  import AnnotationPage

  /** A Streamlit project view and a React project state that describe the
      same server state: the same methods, the reduced list present, and the
      same trained simple models per user and scheme. */
  predicate SameProject(view: Session.ProjectView, p: AnnotationPage.ProjectState)
  {
    && view.next.methods == p.methods
    && p.methodsMin == Some(view.next.methodsMin)
    && view.simpleModels.Keys == p.simpleModels.Keys
    && forall u :: u in view.simpleModels ==> view.simpleModels[u] == p.simpleModels[u].Keys
  }

  /** Both clients find a simple model for the same user and scheme, except
      that the React page treats an empty scheme name as no scheme. */
  lemma ClientsSeeSameModel(st: Session.SessionState, view: Session.ProjectView, p: AnnotationPage.ProjectState)
    requires SameProject(view, p)
    ensures st.scheme != "" ==>
              (Session.IsSimpleModel(st, view) <==> AnnotationPage.CurrentModel(Some(st.user), Some(st.scheme), Some(p)).Some?)
    ensures st.scheme == "" ==> AnnotationPage.CurrentModel(Some(st.user), Some(st.scheme), Some(p)).None?
  {
  }

  /** Both clients offer the same selection modes for the same user, scheme
      and model state; on an empty scheme name the React page offers the
      reduced list. */
  lemma ClientsOfferSameModes(st: Session.SessionState, view: Session.ProjectView, p: AnnotationPage.ProjectState)
    requires SameProject(view, p)
    ensures st.scheme != "" ==>
              Session.ModeSelection(st, view) == AnnotationPage.AvailableModes(Some(st.user), Some(st.scheme), Some(p))
    ensures st.scheme == "" ==>
              AnnotationPage.AvailableModes(Some(st.user), Some(st.scheme), Some(p)) == view.next.methodsMin
  {
    ClientsSeeSameModel(st, view, p);
  }
}

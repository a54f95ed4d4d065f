/**
 * Mounting a live view: both the generated model views and the cards page
 * identify the browser session the same way.
 */
module Sessions {
  import opened Notifications

  /** A mounted session: its id, the HTTP session afterwards, and its (empty) drafts. */
  datatype Mounted = Mounted(sessionId: string, session: map<string, string>, drafts: Drafts)

  /**
   * `mount`: reuses the session's non-empty `"id"`, otherwise stores the
   * fresh id (a `uuid4` in the source); the drafts start empty.
   */
  function Mount(session: map<string, string>, freshId: string): (m: Mounted)
    ensures "id" in session && session["id"] != "" ==> m.sessionId == session["id"] && m.session == session
    ensures !("id" in session && session["id"] != "") ==> m.sessionId == freshId && m.session == session["id" := freshId]
    ensures "id" in m.session && m.session["id"] == m.sessionId
    ensures m.drafts == map[]
  {
    if "id" in session && session["id"] != "" then Mounted(session["id"], session, map[])
    else Mounted(freshId, session["id" := freshId], map[])
  }

  /**
   * A browser that mounts again with the session it got keeps its id and
   * its session, whatever fresh id is offered the second time.
   */
  lemma RemountKeepsSession(session: map<string, string>, freshId: string, otherId: string)
    requires freshId != ""
    ensures Mount(Mount(session, freshId).session, otherId).sessionId == Mount(session, freshId).sessionId
    ensures Mount(Mount(session, freshId).session, otherId).session == Mount(session, freshId).session
  {
  }
}

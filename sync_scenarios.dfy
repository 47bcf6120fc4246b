/**
 * Concrete runs of the editor, alone and against the room server: a saved
 * edit travelling from one editor to another, the revert that is never
 * saved, and a save confirmed after the socket went down.
 */
module SyncScenarios {
  import opened Common
  import opened Protocol
  import opened EditorSync
  import RoomServerScenarios

  /** Socket "A" types "hello" into an empty document; the save succeeds and is announced. */
  method SavedEditIsAnnounced() returns (announced: Outgoing, sent: SaveRequest, status: SaveStatus)
    ensures sent == SaveRequest("x", "T", "hello")
    ensures announced == ContentChangeMsg("x", "hello", "T", "demo")
    ensures status == Saved
  {
    var a := new Editor("x", "demo", "", "T", true, "A");
    a.EditContent("hello");
    a.DebounceFired("hello", "T");
    sent := a.requests[0];
    a.SaveResponded(0, Succeeded);
    announced := a.outbox[|a.outbox| - 1];
    status := a.saveStatus;
  }

  /**
   * The announcement reaches the server, which relays it to "B" and "C";
   * "B"'s editor, open on the same file, takes the new text, while "A"'s own
   * editor would ignore the same payload.
   */
  method EditTravelsToPeer(now: Timestamp) returns (peer: string, sender: string)
    ensures peer == "hello"
    ensures sender == "typed on"
  {
    var announced, _, _ := SavedEditIsAnnounced();
    var update, _ := RoomServerScenarios.EditReachesOthers(now);
    assert update.payload == ContentUpdated(announced.fileId, announced.content, announced.title, "A", now);
    assert "B" in update.to && "A" !in update.to;
    var b := new Editor("x", "demo", "", "T", true, "B");
    b.RemoteUpdate(update.payload);
    peer := b.content;
    var a := new Editor("x", "demo", "typed on", "T", true, "A");
    a.RemoteUpdate(update.payload);
    sender := a.content;
  }

  /** An editor loaded with "A" whose edit to "AB" has been saved. */
  method SavedOnce() returns (e: Editor)
    ensures fresh(e) && e.Valid()
    ensures e.content == "AB" && e.title == "T" && e.fileId == "f"
    ensures e.frozenContent == "A" && e.frozenTitle == "T"
    ensures e.requests == [SaveRequest("f", "T", "AB")]
  {
    e := new Editor("f", "r", "A", "T", true, "s");
    e.EditContent("AB");
    e.DebounceFired("AB", "T");
    e.SaveResponded(0, Succeeded);
  }

  /** Editing "A" to "AB" saves it; undoing back to "A" triggers no save. */
  method RevertIsNotSaved() returns (shown: string, lastSent: string, saves: nat)
    ensures shown == "A"
    ensures lastSent == "AB"
    ensures saves == 1
  {
    var e := SavedOnce();
    e.EditContent("A");
    e.DebounceFired("A", "T");
    shown, lastSent, saves := e.content, e.requests[|e.requests| - 1].content, |e.requests|;
  }

  /**
   * A save started while connected and confirmed after the socket dropped
   * still emits `content-change`, after the `leave-room` of the cleanup:
   * the closure tests the connection flag captured when the save started.
   */
  method StaleFlagAnnouncesAfterLeave() returns (emits: seq<Outgoing>)
    ensures emits == [JoinRoomMsg("r"), LeaveRoomMsg("r"), ContentChangeMsg("f", "B", "T", "r")]
  {
    var e := new Editor("f", "r", "A", "T", true, "s");
    e.DebounceFired("B", "T");
    e.ConnectionChanged(false, "s");
    e.SaveResponded(0, Succeeded);
    emits := e.outbox;
  }
}

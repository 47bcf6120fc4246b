/**
 * The client half of the collaboration protocol: the sync logic of the
 * markdown editor component. Props, component state, refs and the socket are
 * the fields of an `Editor`; every effect run, listener call and handler is a
 * method that changes them. What leaves the component is recorded: socket
 * emits in `outbox`, PUT requests in `requests`, parent callbacks in
 * `parentCalls`; the save status the parent holds is `saveStatus`.
 */
module EditorSync {
  import opened Common
  import opened Protocol

  /** The three values `onSaveStatusChange` is called with; the parent starts at `Saved`. */
  datatype SaveStatus = Saving | Saved | Failed

  /** What the component emits on its socket. */
  datatype Outgoing =
    | JoinRoomMsg(roomId: RoomId)
    | LeaveRoomMsg(roomId: RoomId)
    | ContentChangeMsg(fileId: FileId, content: string, title: string, roomId: RoomId)

  /** Calls of the parent's `onContentChange` and `onTitleChange`. */
  datatype ParentCall = ContentChanged(content: string) | TitleChanged(title: string)

  /** The body of a `PUT /api/files/<fileId>` request. */
  datatype SaveRequest = SaveRequest(fileId: FileId, title: string, content: string)

  /**
   * A save awaiting its response, with what the `saveContent` closure captured
   * at the render that started it: the room and whether the socket was connected.
   */
  datatype PendingSave = PendingSave(request: SaveRequest, roomId: RoomId, connected: bool)

  /** How a PUT ends: `data.success` truthy, falsy, or an exception from fetch or JSON parsing. */
  datatype SaveOutcome = Succeeded | Unsuccessful(error: string) | Threw(error: string)

  /** The `content-updated` listener as registered by one run of the socket effect. */
  datatype Subscription = Subscription(roomId: RoomId, fileId: FileId)

  /**
   * The echo filter of the `content-updated` listener: an update is applied
   * when it is for the open document and was not sent by this socket.
   */
  function Accepts(fileId: FileId, selfId: ConnId, data: Payload): (ok: bool)
    ensures ok ==> data.ContentUpdated? && data.fileId == fileId
    ensures data.ContentUpdated? && data.userId == selfId ==> !ok
    ensures data.ContentUpdated? && data.fileId == fileId && data.userId != selfId ==> ok
  {
    data.ContentUpdated? && data.fileId == fileId && data.userId != selfId
  }

  /** The auto-save trigger: the debounced values differ from the frozen baseline. */
  function ShouldSave(debouncedContent: string, debouncedTitle: string,
                      frozenContent: string, frozenTitle: string): (ok: bool)
    ensures debouncedContent == frozenContent && debouncedTitle == frozenTitle ==> !ok
    ensures debouncedContent != frozenContent ==> ok
    ensures debouncedTitle != frozenTitle ==> ok
  {
    debouncedContent != frozenContent || debouncedTitle != frozenTitle
  }

  /** The save request a `content-change` emit reports as stored. */
  function Reported(m: Outgoing): SaveRequest
    requires m.ContentChangeMsg?
  {
    SaveRequest(m.fileId, m.title, m.content)
  }

  /**
   * The room the server last heard this component join and not leave, read
   * off the emits in order; `content-change` emits do not affect it.
   */
  function OpenRoom(msgs: seq<Outgoing>): (open: Option<RoomId>)
    ensures open.Some? ==> JoinRoomMsg(open.value) in msgs
  {
    if msgs == [] then None
    else match msgs[|msgs| - 1]
      case JoinRoomMsg(r) => Some(r)
      case LeaveRoomMsg(_) => None
      case ContentChangeMsg(_, _, _, _) => OpenRoom(msgs[..|msgs| - 1])
  }

  /**
   * Whether emitting `m` respects the bracketing when `open` is the open
   * room: a `join-room` only when no room is open, a `leave-room` only for
   * exactly the open room.
   */
  predicate FitsAfter(open: Option<RoomId>, m: Outgoing)
  {
    (m.JoinRoomMsg? ==> open == None) &&
    (m.LeaveRoomMsg? ==> open == Some(m.roomId))
  }

  /** Joins and leaves are well bracketed: every emit fits after the ones before it. */
  ghost predicate Bracketed(msgs: seq<Outgoing>)
  {
    msgs == [] ||
    (Bracketed(msgs[..|msgs| - 1]) && FitsAfter(OpenRoom(msgs[..|msgs| - 1]), msgs[|msgs| - 1]))
  }

  /** Appending one emit: how the open room moves. */
  lemma OpenRoomSnoc(msgs: seq<Outgoing>, m: Outgoing)
    ensures OpenRoom(msgs + [m]) ==
      match m
      case JoinRoomMsg(r) => Some(r)
      case LeaveRoomMsg(_) => None
      case ContentChangeMsg(_, _, _, _) => OpenRoom(msgs)
  {
    assert (msgs + [m])[..|msgs|] == msgs;
  }

  /** Bracketing, read at each index: every emit fits after the prefix before it. */
  lemma {:induction false} BracketedAt(msgs: seq<Outgoing>, i: nat)
    requires Bracketed(msgs)
    requires i < |msgs|
    ensures FitsAfter(OpenRoom(msgs[..i]), msgs[i])
    decreases |msgs|
  {
    var front := msgs[..|msgs| - 1];
    if i < |msgs| - 1 {
      BracketedAt(front, i);
      assert front[..i] == msgs[..i];
    }
  }

  /**
   * What bracketing buys: every `leave-room` at index `i` names the room of a
   * `join-room` at some earlier index `j`, and only `content-change` emits lie
   * between the two.
   */
  lemma {:induction false} OpenRoomWitness(msgs: seq<Outgoing>, r: RoomId)
    requires OpenRoom(msgs) == Some(r)
    ensures exists j :: 0 <= j < |msgs| && msgs[j] == JoinRoomMsg(r) &&
              forall k :: j < k < |msgs| ==> msgs[k].ContentChangeMsg?
  {
    var last := |msgs| - 1;
    match msgs[last]
    case JoinRoomMsg(_) =>
      assert msgs[last] == JoinRoomMsg(r);
    case LeaveRoomMsg(_) =>
    case ContentChangeMsg(_, _, _, _) =>
      var front := msgs[..last];
      OpenRoomWitness(front, r);
      var j :| 0 <= j < |front| && front[j] == JoinRoomMsg(r) &&
               forall k :: j < k < |front| ==> front[k].ContentChangeMsg?;
      assert msgs[j] == JoinRoomMsg(r);
      assert forall k :: j < k < |msgs| ==> msgs[k].ContentChangeMsg? by {
        forall k | j < k < |msgs|
          ensures msgs[k].ContentChangeMsg?
        {
          if k < last {
            assert msgs[k] == front[k];
          }
        }
      }
  }

  /** Every `leave-room` names the room of an earlier `join-room`, with no join or leave in between. */
  lemma LeaveFollowsJoin(msgs: seq<Outgoing>, i: nat)
    requires Bracketed(msgs)
    requires i < |msgs| && msgs[i].LeaveRoomMsg?
    ensures exists j :: 0 <= j < i && msgs[j] == JoinRoomMsg(msgs[i].roomId) &&
              forall k :: j < k < i ==> msgs[k].ContentChangeMsg?
  {
    var before := msgs[..i];
    BracketedAt(msgs, i);
    OpenRoomWitness(before, msgs[i].roomId);
    var j :| 0 <= j < |before| && before[j] == JoinRoomMsg(msgs[i].roomId) &&
             forall k :: j < k < |before| ==> before[k].ContentChangeMsg?;
    assert msgs[j] == before[j];
    assert forall k :: j < k < i ==> msgs[k] == before[k];
  }

  /** Every `content-change` emit reports a request in `confirmed`. */
  ghost predicate AllReported(msgs: seq<Outgoing>, confirmed: set<SaveRequest>)
  {
    forall i :: 0 <= i < |msgs| && msgs[i].ContentChangeMsg? ==> Reported(msgs[i]) in confirmed
  }

  /**
   * Confirmed and pending saves are among the requests sent, and every
   * request went out for a non-empty file id.
   */
  ghost predicate Recorded(requests: seq<SaveRequest>, pending: seq<PendingSave>, confirmed: set<SaveRequest>)
  {
    (forall q :: q in confirmed ==> q in requests) &&
    (forall k :: 0 <= k < |pending| ==> pending[k].request in requests) &&
    (forall k :: 0 <= k < |requests| ==> Truthy(requests[k].fileId))
  }

  /** One emit keeps the bracketing and the reporting invariant, given its own side condition. */
  lemma EmitKeepsInvariants(msgs: seq<Outgoing>, m: Outgoing, confirmed: set<SaveRequest>)
    requires Bracketed(msgs) && AllReported(msgs, confirmed)
    requires FitsAfter(OpenRoom(msgs), m)
    requires m.ContentChangeMsg? ==> Reported(m) in confirmed
    ensures Bracketed(msgs + [m]) && AllReported(msgs + [m], confirmed)
    ensures OpenRoom(msgs + [m]) ==
      match m
      case JoinRoomMsg(r) => Some(r)
      case LeaveRoomMsg(_) => None
      case ContentChangeMsg(_, _, _, _) => OpenRoom(msgs)
  {
    OpenRoomSnoc(msgs, m);
    var all := msgs + [m];
    assert all[..|all| - 1] == msgs;
    assert forall i :: 0 <= i < |msgs| ==> all[i] == msgs[i];
  }

  /** At mount, and right after a reset, the debounced values equal the baseline: no save. */
  lemma NoSaveAtBaseline(content: string, title: string)
    ensures !ShouldSave(content, title, content, title)
  {
  }

  /** An update the sender's own socket receives back is never applied there. */
  lemma OwnEchoIgnored(fileId: FileId, selfId: ConnId, content: string, title: string, now: Timestamp)
    ensures !Accepts(fileId, selfId, ContentUpdated(fileId, content, title, selfId, now))
  {
  }

  /**
   * One settlement of the debounce: the debounced content and title. The
   * functions below take a save to send these same values; the component
   * sends the debounced content but the current `title`, which differs when
   * the title was edited within the debounce window.
   */
  datatype Draft = Draft(content: string, title: string)

  /**
   * The row the store ends with when the debounce settles on each draft of
   * `settled` in turn and every save it triggers succeeds, the saves
   * completing in the order they were started and sending the debounced
   * title that triggered it, the trigger comparing against a `baseline` that
   * never moves, as the component does. The row is the
   * initial one or a settled draft, and a last draft that differs from the
   * baseline is always stored.
   */
  function StoredAsWritten(baseline: Draft, stored: Draft, settled: seq<Draft>): (r: Draft)
    ensures r == stored || r in settled
    ensures settled != [] && settled[|settled| - 1] != baseline ==> r == settled[|settled| - 1]
    decreases |settled|
  {
    if settled == [] then stored
    else
      var d := settled[|settled| - 1];
      if ShouldSave(d.content, d.title, baseline.content, baseline.title) then d
      else StoredAsWritten(baseline, stored, settled[..|settled| - 1])
  }

  /**
   * An edit saved and then undone is never saved back: from "A", the text
   * becomes "AB" (saved), then "A" again (equal to the baseline, so no save),
   * and the row keeps "AB" while the editor shows "A".
   */
  lemma RevertLeavesStaleRow()
    ensures var loaded := Draft("A", "T");
      StoredAsWritten(loaded, loaded, [Draft("AB", "T"), loaded]) == Draft("AB", "T") != loaded
  {
    var loaded := Draft("A", "T");
    var settled := [Draft("AB", "T"), loaded];
    assert settled[..1] == [Draft("AB", "T")];
    assert [Draft("AB", "T")][..0] == [];
  }

  /**
   * The corrected trigger: each settlement is compared with what the store
   * last received, i.e. the baseline moves to every saved draft. Saves are
   * again taken to complete in the order they were started and to send the
   * debounced title. The row is the
   * initial one or a settled draft.
   */
  function StoredRebased(stored: Draft, settled: seq<Draft>): (r: Draft)
    ensures r == stored || r in settled
    decreases |settled|
  {
    if settled == [] then stored
    else
      var d := settled[|settled| - 1];
      var before := StoredRebased(stored, settled[..|settled| - 1]);
      if ShouldSave(d.content, d.title, before.content, before.title) then d else before
  }

  /**
   * With the corrected trigger the store always ends with the last settled
   * draft, provided the saves complete in the order they were started and
   * each sends the debounced title that triggered it.
   */
  lemma RebasedStoresLastDraft(stored: Draft, settled: seq<Draft>)
    requires settled != []
    ensures StoredRebased(stored, settled) == settled[|settled| - 1]
  {
  }

  /**
   * As written, and with each save sending the debounced title, the row
   * stays at the baseline exactly when every settled draft equals it.
   */
  lemma {:induction false} AsWrittenStaysAtBaseline(baseline: Draft, settled: seq<Draft>)
    ensures StoredAsWritten(baseline, baseline, settled) == baseline <==>
            forall i :: 0 <= i < |settled| ==> settled[i] == baseline
    decreases |settled|
  {
    if settled != [] {
      var front := settled[..|settled| - 1];
      AsWrittenStaysAtBaseline(baseline, front);
      assert forall i :: 0 <= i < |front| ==> front[i] == settled[i];
    }
  }

  /**
   * Exactly when the frozen baseline loses an edit: the row ends with the
   * last settled draft unless that draft is the baseline again after some
   * other draft was saved.
   */
  lemma AsWrittenLosesOnlyReverts(baseline: Draft, settled: seq<Draft>)
    requires settled != []
    ensures StoredAsWritten(baseline, baseline, settled) == settled[|settled| - 1] <==>
            settled[|settled| - 1] != baseline || forall i :: 0 <= i < |settled| ==> settled[i] == baseline
  {
    var front := settled[..|settled| - 1];
    AsWrittenStaysAtBaseline(baseline, front);
    assert forall i :: 0 <= i < |front| ==> front[i] == settled[i];
  }

  /**
   * One mounted editor. `fileId`, `roomId` and `initialTitle` are the props as
   * of the last render (the `initialContent` prop is read only by the effect
   * that resets the document, so it is a parameter there); `content` and
   * `title` are component state; `frozenContent` and `frozenTitle` the refs
   * holding the baseline; `connected` and `selfId` the socket's
   * `isConnected` and `id`; `listening` the listener the socket effect set up.
   */
  class Editor {
    var fileId: FileId
    var roomId: RoomId
    var initialTitle: string
    var content: string
    var title: string
    var frozenContent: string
    var frozenTitle: string
    var connected: bool
    var selfId: ConnId
    var listening: Option<Subscription>
    var saveStatus: SaveStatus
    var outbox: seq<Outgoing>
    var requests: seq<SaveRequest>
    var pending: seq<PendingSave>
    var parentCalls: seq<ParentCall>
    /** The requests whose response reported success. */
    ghost var confirmed: set<SaveRequest>

    /**
     * The listener matches the current props exactly while connected; the
     * server's view of the open room matches it; every `content-change` emit
     * reports a request that was confirmed stored; every request went out
     * for a non-empty file id.
     */
    ghost predicate Valid()
      reads this
    {
      listening == (if connected then Some(Subscription(roomId, fileId)) else None) &&
      OpenRoom(outbox) == (if connected then Some(roomId) else None) &&
      Bracketed(outbox) &&
      AllReported(outbox, confirmed) &&
      Recorded(requests, pending, confirmed)
    }

    /**
     * Mount: state and baseline take the initial props, and a connected
     * socket joins the room. The auto-save effect also runs on mount, but the
     * debounced values then equal the baseline (see `NoSaveAtBaseline`).
     */
    constructor (fileId: FileId, roomId: RoomId, initialContent: string, initialTitle: string,
                 connected: bool, selfId: ConnId)
      ensures Valid()
      ensures this.fileId == fileId && this.roomId == roomId && this.initialTitle == initialTitle
      ensures content == initialContent && title == initialTitle
      ensures frozenContent == initialContent && frozenTitle == initialTitle
      ensures this.connected == connected && this.selfId == selfId
      ensures outbox == (if connected then [JoinRoomMsg(roomId)] else [])
      ensures saveStatus == Saved
      ensures requests == [] && pending == [] && parentCalls == [] && confirmed == {}
    {
      this.fileId, this.roomId, this.initialTitle := fileId, roomId, initialTitle;
      content, title := initialContent, initialTitle;
      frozenContent, frozenTitle := initialContent, initialTitle;
      this.connected, this.selfId := connected, selfId;
      listening := if connected then Some(Subscription(roomId, fileId)) else None;
      saveStatus := Saved;
      outbox := if connected then [JoinRoomMsg(roomId)] else [];
      requests, pending, parentCalls := [], [], [];
      confirmed := {};
      new;
      assert connected ==> outbox == [] + [JoinRoomMsg(roomId)];
      EmitKeepsInvariants([], JoinRoomMsg(roomId), {});
    }

    /**
     * A re-render with new props, running the effects whose dependencies
     * changed, in declaration order: a new `fileId` resets baseline, content
     * and title to the initial props; a new `initialTitle` prop sets the
     * title; a new room or file re-runs the socket effect, whose cleanup
     * leaves the old room before the new run joins the new one.
     */
    method Rerender(fileId': FileId, roomId': RoomId, initialContent': string, initialTitle': string)
      requires Valid()
      modifies this`fileId, this`roomId, this`initialTitle, this`content, this`title
      modifies this`frozenContent, this`frozenTitle, this`outbox, this`listening
      ensures Valid()
      ensures fileId == fileId' && roomId == roomId' && initialTitle == initialTitle'
      ensures fileId' != old(fileId) ==>
        frozenContent == initialContent' && frozenTitle == initialTitle' && content == initialContent'
      ensures fileId' == old(fileId) ==>
        frozenContent == old(frozenContent) && frozenTitle == old(frozenTitle) && content == old(content)
      ensures title == (if fileId' != old(fileId) || initialTitle' != old(initialTitle) then initialTitle' else old(title))
      ensures outbox == old(outbox) +
        (if old(connected) && (fileId' != old(fileId) || roomId' != old(roomId))
         then [LeaveRoomMsg(old(roomId)), JoinRoomMsg(roomId')] else [])
    {
      var reset, moved := fileId' != fileId, roomId' != roomId;
      if reset {
        ResetDocument(initialContent', initialTitle');
      }
      if initialTitle' != initialTitle {
        title, initialTitle := initialTitle', initialTitle';
      }
      if reset || moved {
        ResubscribeSocket(fileId', roomId');
      }
    }

    /** The effect keyed on `fileId`: baseline, content and title take the initial props. */
    method ResetDocument(initialContent': string, initialTitle': string)
      modifies this`frozenContent, this`frozenTitle, this`content, this`title
      ensures frozenContent == initialContent' && frozenTitle == initialTitle'
      ensures content == initialContent' && title == initialTitle'
    {
      frozenContent, frozenTitle := initialContent', initialTitle';
      content, title := initialContent', initialTitle';
    }

    /**
     * The socket effect re-run for new room or file props: while connected,
     * the cleanup of the previous run leaves the old room and the new run
     * joins the new one and listens for the new file.
     */
    method ResubscribeSocket(fileId': FileId, roomId': RoomId)
      requires Valid()
      modifies this`fileId, this`roomId, this`outbox, this`listening
      ensures Valid()
      ensures fileId == fileId' && roomId == roomId'
      ensures outbox == old(outbox) +
        (if connected then [LeaveRoomMsg(old(roomId)), JoinRoomMsg(roomId')] else [])
    {
      if connected {
        var leave, join := LeaveRoomMsg(roomId), JoinRoomMsg(roomId');
        EmitKeepsInvariants(outbox, leave, confirmed);
        EmitKeepsInvariants(outbox + [leave], join, confirmed);
        assert outbox + [leave] + [join] == outbox + [leave, join];
        outbox := outbox + [leave, join];
      }
      fileId, roomId := fileId', roomId';
      listening := if connected then Some(Subscription(roomId', fileId')) else None;
    }

    /**
     * The socket connects or disconnects (`socket.id` is whatever it is now).
     * A change of `isConnected` re-runs the socket effect: going down runs
     * the cleanup (leave the room, drop the listener), coming up joins.
     */
    method ConnectionChanged(up: bool, id: ConnId)
      requires Valid()
      modifies this`connected, this`selfId, this`outbox, this`listening
      ensures Valid()
      ensures connected == up && selfId == id
      ensures outbox == old(outbox) +
        (if up == old(connected) then []
         else if up then [JoinRoomMsg(roomId)] else [LeaveRoomMsg(roomId)])
    {
      if up != connected {
        var m := if up then JoinRoomMsg(roomId) else LeaveRoomMsg(roomId);
        EmitKeepsInvariants(outbox, m, confirmed);
        outbox := outbox + [m];
        listening := if up then Some(Subscription(roomId, fileId)) else None;
      }
      connected, selfId := up, id;
    }

    /**
     * A `content-updated` event reaches the socket: with a listener set up,
     * it replaces content and title exactly when the echo filter accepts it.
     */
    method RemoteUpdate(data: Payload)
      requires Valid()
      modifies this`content, this`title
      ensures Valid()
      ensures (content, title) ==
        (if connected && Accepts(fileId, selfId, data) then (data.content, data.title)
         else old((content, title)))
    {
      match listening
      case Some(sub) =>
        if Accepts(sub.fileId, selfId, data) {
          content, title := data.content, data.title;
        }
      case None =>
    }

    /**
     * The debounced content and title settle on new values. When they differ
     * from the baseline and a file is open, a save starts: status `Saving`,
     * and a PUT of the current title with the debounced content goes out. A
     * save with an empty file id stops before changing anything.
     */
    method DebounceFired(debouncedContent: string, debouncedTitle: string)
      requires Valid()
      modifies this`saveStatus, this`requests, this`pending
      ensures Valid()
      ensures var starts := ShouldSave(debouncedContent, debouncedTitle, frozenContent, frozenTitle) && Truthy(fileId);
        var req := SaveRequest(fileId, title, debouncedContent);
        saveStatus == (if starts then Saving else old(saveStatus)) &&
        requests == old(requests) + (if starts then [req] else []) &&
        pending == old(pending) + (if starts then [PendingSave(req, roomId, connected)] else [])
    {
      if ShouldSave(debouncedContent, debouncedTitle, frozenContent, frozenTitle) && Truthy(fileId) {
        var req := SaveRequest(fileId, title, debouncedContent);
        saveStatus := Saving;
        requests := requests + [req];
        pending := pending + [PendingSave(req, roomId, connected)];
      }
    }

    /**
     * The response to the `k`-th pending save arrives. Success sets `Saved`
     * and, if the socket was connected when the save started, emits
     * `content-change` with the saved values and the room captured then;
     * any other outcome sets `Failed` and emits nothing.
     */
    method SaveResponded(k: nat, outcome: SaveOutcome)
      requires Valid()
      requires k < |pending|
      modifies this`saveStatus, this`pending, this`outbox, this`confirmed
      ensures Valid()
      ensures pending == old(pending[..k] + pending[k + 1..])
      ensures saveStatus == (if outcome.Succeeded? then Saved else Failed)
      ensures var p := old(pending[k]);
        outbox == old(outbox) +
          (if outcome.Succeeded? && p.connected
           then [ContentChangeMsg(p.request.fileId, p.request.content, p.request.title, p.roomId)]
           else [])
    {
      var p := pending[k];
      ghost var before := pending;
      pending := pending[..k] + pending[k + 1..];
      assert forall j :: 0 <= j < |pending| ==> pending[j] in before;
      match outcome
      case Succeeded =>
        saveStatus := Saved;
        confirmed := confirmed + {p.request};
        if p.connected {
          var m := ContentChangeMsg(p.request.fileId, p.request.content, p.request.title, p.roomId);
          EmitKeepsInvariants(outbox, m, confirmed);
          outbox := outbox + [m];
        }
      case Unsuccessful(_) =>
        saveStatus := Failed;
      case Threw(_) =>
        saveStatus := Failed;
    }

    /** Typing in the text area: content takes the new text and the parent hears it. */
    method EditContent(newContent: string)
      requires Valid()
      modifies this`content, this`parentCalls
      ensures Valid()
      ensures content == newContent
      ensures parentCalls == old(parentCalls) + [ContentChanged(newContent)]
    {
      content := newContent;
      parentCalls := parentCalls + [ContentChanged(newContent)];
    }

    /** Editing the title: title takes the new text and the parent hears it. */
    method EditTitle(newTitle: string)
      requires Valid()
      modifies this`title, this`parentCalls
      ensures Valid()
      ensures title == newTitle
      ensures parentCalls == old(parentCalls) + [TitleChanged(newTitle)]
    {
      title := newTitle;
      parentCalls := parentCalls + [TitleChanged(newTitle)];
    }
  }
}

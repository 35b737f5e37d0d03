/** The binding-invocation reply protocol (the body of the handler wrapper in
    `Webview::Bind`, include/webview/detail/engine_base.inl): how each way in
    which a bound handler can finish becomes one call of
    `window.__webview__.onReply(id, status, payload)` in the page, and the
    table of pending invocation handles (`Promises::handles_`).

    JSON serialisation belongs to an external library; here it is an arbitrary
    function `ser: string -> string`. */
module Replies {
  import opened Wrappers

  /** How an exception thrown by a handler (or by argument parsing) is
      classified by the `catch` clauses. */
  datatype Failure =
    | SerializableError(serialized: string)  // a js::SerializableException; `serialized` is its Serialize()
    | StdError(what: string)                 // any other std::exception; `what` is what()
    | UnknownError                           // anything else

  /** How a handler invocation finished. */
  datatype Outcome =
    | VoidDone                       // a handler returning void resolved
    | ValueDone(resultJson: string)  // a value handler resolved; its result after the first Serialize
    | Failed(failure: Failure)       // the promise chain rejected

  /** The three arguments of one `onReply` call, already rendered as
      JavaScript source text. */
  datatype Reply = Reply(id: string, status: nat, payload: string)

  /** The script text evaluated for a reply. */
  function ReplyScript(r: Reply): string
  {
    "window.__webview__.onReply(" + r.id + ", " + StatusText(r.status) + ", " + r.payload + ")"
  }

  function StatusText(status: nat): string
  {
    if status == 0 then "0" else "1"
  }

  /** Literal payload of the unknown-exception reply: the JSON text
      `"unknown exception"`, quotes included, serialised once more. */
  const UnknownExceptionText: string := "\"unknown exception\""

  /** Message of the reply sent when the pending table is already done. */
  const TerminatedText: string := "Terminated webview !"

  /** The payload for a failure; the same in the asynchronous `Catch` chain
      and in the synchronous catch around argument parsing. */
  function FailurePayload(ser: string -> string, f: Failure): string
  {
    match f
    case SerializableError(s) => ser(s)
    case StdError(w) => ser(ser(w))
    case UnknownError => ser(UnknownExceptionText)
  }

  /** The reply dispatched at the end of the asynchronous chain. */
  function AsyncReply(ser: string -> string, id: string, o: Outcome): (r: Reply)
    ensures r.id == ser(id)
    ensures r.status == 0 <==> !o.Failed?
    ensures r.status <= 1
    ensures o.VoidDone? ==> r.payload == "undefined"
    ensures o.ValueDone? ==> r.payload == ser(o.resultJson)
    ensures o.Failed? ==> r.payload == FailurePayload(ser, o.failure)
  {
    match o
    case VoidDone => Reply(ser(id), 0, "undefined")
    case ValueDone(v) => Reply(ser(id), 0, ser(v))
    case Failed(SerializableError(s)) => Reply(ser(id), 1, ser(s))
    case Failed(StdError(w)) => Reply(ser(id), 1, ser(ser(w)))
    case Failed(UnknownError) => Reply(ser(id), 1, ser(UnknownExceptionText))
  }

  /** The reply dispatched by the synchronous catch clauses around argument
      parsing and the construction of the promise chain. */
  function SyncCatchReply(ser: string -> string, id: string, f: Failure): (r: Reply)
    ensures r.id == ser(id) && r.status == 1
  {
    match f
    case SerializableError(s) => Reply(ser(id), 1, ser(s))
    case StdError(w) => Reply(ser(id), 1, ser(ser(w)))
    case UnknownError => Reply(ser(id), 1, ser(UnknownExceptionText))
  }

  /** The reply dispatched when `promises_.done_` is set: the handler does not
      run. */
  function TerminatedReply(ser: string -> string, id: string): (r: Reply)
    ensures r.id == ser(id) && r.status == 1 && r.payload == ser(TerminatedText)
  {
    Reply(ser(id), 1, ser(TerminatedText))
  }

  /** A failure is reported identically whether it is caught synchronously or
      by the asynchronous chain. */
  lemma FailureEncodingAgrees(ser: string -> string, id: string, f: Failure)
    ensures SyncCatchReply(ser, id, f) == AsyncReply(ser, id, Failed(f))
    ensures SyncCatchReply(ser, id, f).payload == FailurePayload(ser, f)
  {
  }

  /** The text every reply script starts with, up to the id. */
  const OnReplyHead: string := "window.__webview__.onReply("

  /** What the page can read back from a reply script, knowing the id it
      sent: the status digit and the payload up to the closing parenthesis.
      Anything not shaped like a reply script yields None. */
  function ParseReply(id: string, script: string): (r: Option<Reply>)
    ensures r.Some? ==> r.value.id == id && r.value.status <= 1 && ReplyScript(r.value) == script
  {
    var head := OnReplyHead + id + ", ";
    var n := |head|;
    if |script| >= n + 4 && script[..n] == head
       && (script[n] == '0' || script[n] == '1')
       && script[n + 1..n + 3] == ", " && script[|script| - 1] == ')'
    then
      var r := Reply(id, if script[n] == '0' then 0 else 1, script[n + 3..|script| - 1]);
      assert ReplyScript(r) == script by {
        assert ReplyScript(r) == head + [script[n]] + ", " + r.payload + ")";
        assert script == script[..n] + [script[n]] + script[n + 1..n + 3] + script[n + 3..|script| - 1] + [script[|script| - 1]];
      }
      Some(r)
    else None
  }

  /** Every reply with a status of 0 or 1 is read back exactly from its
      script: together with the ensures of ParseReply, the script and the id
      determine the status and the payload. */
  lemma ParseReplyScript(r: Reply)
    requires r.status <= 1
    ensures ParseReply(r.id, ReplyScript(r)) == Some(r)
  {
    var head := OnReplyHead + r.id + ", ";
    var n := |head|;
    var s := ReplyScript(r);
    assert s == head + StatusText(r.status) + ", " + r.payload + ")";
    assert s[..n] == head;
    assert s[n] == StatusText(r.status)[0];
    assert s[n + 1..n + 3] == ", ";
    assert s[n + 3..|s| - 1] == r.payload;
  }

  /** Every reply the bridge sends, whatever the outcome, reaches the page
      intact, and its status tells a failure from a success. */
  lemma RepliesAreReadBack(ser: string -> string, id: string, o: Outcome, f: Failure)
    ensures ParseReply(ser(id), ReplyScript(AsyncReply(ser, id, o))) == Some(AsyncReply(ser, id, o))
    ensures ParseReply(ser(id), ReplyScript(SyncCatchReply(ser, id, f))) == Some(SyncCatchReply(ser, id, f))
    ensures ParseReply(ser(id), ReplyScript(TerminatedReply(ser, id))) == Some(TerminatedReply(ser, id))
    ensures ParseReply(ser(id), ReplyScript(AsyncReply(ser, id, o))).value.status == 1 <==> o.Failed?
  {
    ParseReplyScript(AsyncReply(ser, id, o));
    ParseReplyScript(SyncCatchReply(ser, id, f));
    ParseReplyScript(TerminatedReply(ser, id));
  }

  // ---------------------------------------------------------------------
  // The pending-handle table and the save / cleanup handshake.

  /** `Promises::Cleaner`, reduced to the state the code in view touches. */
  datatype Cleaner = Cleaner(name: string, detached: bool)

  /** A freshly constructed cleaner is not detached. */
  function NewCleaner(name: string): (c: Cleaner)
    ensures c.name == name && !c.detached
  {
    Cleaner(name, false)
  }

  /** Result of the cleanup continuation: the new table, whether it
      set `ended`, and whether it detached a saved handle. */
  datatype CleanupResult = CleanupResult(handles: map<string, Cleaner>, ended: bool, detached: bool)

  /** The cleanup continuation: a saved handle is detached and erased;
      otherwise the handle was not saved yet and `ended` is set. */
  function CleanupStep(handles: map<string, Cleaner>, id: string): (r: CleanupResult)
    ensures id !in r.handles
    ensures r.ended <==> id !in handles
    ensures r.detached <==> id in handles
    ensures r.handles == handles - {id}
  {
    if id in handles then CleanupResult(handles - {id}, false, true)
    else CleanupResult(handles, true, false)
  }

  /** Saving the wrapper promise: inserted only when `ended` is still false.
      `emplace` does not overwrite, so under an id that is already pending
      the older handle stays (the source's `assert(emplaced)` is compiled out
      in release builds). */
  function SaveStep(handles: map<string, Cleaner>, id: string, ended: bool): (r: map<string, Cleaner>)
    ensures ended || id in handles ==> r == handles
    ensures !ended && id !in handles ==> r.Keys == handles.Keys + {id} && r[id] == NewCleaner(id)
    ensures forall k :: k in handles ==> k in r && r[k] == handles[k]
  {
    if ended || id in handles then handles else handles[id := NewCleaner(id)]
  }

  /** The two orders in which the save and the cleanup can run. */
  datatype Order = CleanupFirst | SaveFirst

  /** The table after both steps have run in the given order. */
  function AfterHandshake(handles: map<string, Cleaner>, id: string, order: Order): map<string, Cleaner>
    requires id !in handles
  {
    match order
    case CleanupFirst =>
      var c := CleanupStep(handles, id);
      SaveStep(c.handles, id, c.ended)
    case SaveFirst =>
      CleanupStep(SaveStep(handles, id, false), id).handles
  }

  /** Whatever the order, the table ends with no entry for the id and every
      other entry as it was; the handle is detached exactly when it was
      saved first. */
  lemma HandshakeLeavesNoEntry(handles: map<string, Cleaner>, id: string, order: Order)
    requires id !in handles
    ensures AfterHandshake(handles, id, order) == handles
    ensures id !in AfterHandshake(handles, id, order)
    ensures order == SaveFirst <==> CleanupStep(if order == SaveFirst then SaveStep(handles, id, false) else handles, id).detached
  {
  }
}

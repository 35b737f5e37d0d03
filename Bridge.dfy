/** The engine-independent part of `Webview` (src/engine_base.cpp,
    include/webview/detail/engine_base.h and engine_base.inl): the binding
    registry, the list of user scripts with its distinguished bind script, the
    routing of page messages, the reply protocol of bound handlers with its
    pending-handle table, and the reaction to window destruction.

    The WebView2 backend's script calls are merged into the same class. What
    the engine does to the page is recorded, in order, in `engineLog`;
    `tasks` records what is queued with `Dispatch`. */
module Bridge {
  import opened Wrappers
  import opened Errors
  import opened EdgeScripts
  import opened Replies
  import WindowCount

  /** Stand-in for the shared pointer to a bound function's wrapper. */
  datatype Handler = Handler(token: nat)

  /** The parsed `{id, method, params}` object posted by the page; `name` is
      its `method` field. */
  datatype Message = Message(id: string, name: string, params: string)

  /** A task queued with `Dispatch`. */
  datatype Task =
    | EvalScript(code: string)                           // a lambda that calls Eval(code)
    | RunBinding(handler: Handler, id: string, params: string)  // `(*create_promise)(id, params)`

  /** What escapes a call as a C++ exception. */
  datatype Thrown =
    | Raised(exception: Exception)  // a `webview::Exception`
    | OutOfRange                    // std::out_of_range from `bindings_.at`
    | ParseError                    // whatever the JSON parser throws on a malformed message

  /** The result of parsing a binding's JSON arguments. */
  datatype ArgsParse = ArgsOk | ArgsFailed(failure: Failure)

  /** `navigate`: the empty URL opens about:blank, any other is kept. */
  function NavigationTarget(url: string): (r: string)
    ensures url == "" ==> r == "about:blank"
    ensures url != "" ==> r == url
  {
    if url == "" then "about:blank" else url
  }

  // ---------------------------------------------------------------------
  // The bind script.

  /** `order` lists every element of `keys` exactly once. */
  ghost predicate IsEnumeration(order: seq<string>, keys: set<string>)
  {
    && (forall i, j :: 0 <= i < j < |order| ==> order[i] != order[j])
    && (forall x :: x in order <==> x in keys)
  }

  /** The serialised names, separated by commas. */
  function CommaJoin(ser: string -> string, names: seq<string>): string
  {
    if |names| == 0 then ""
    else if |names| == 1 then ser(names[0])
    else CommaJoin(ser, names[..|names| - 1]) + "," + ser(names[|names| - 1])
  }

  /** The JavaScript array literal of the names. */
  function NameList(ser: string -> string, names: seq<string>): string
  {
    "[" + CommaJoin(ser, names) + "]"
  }

  const BindScriptHead: string := "(function() {\n    'use strict';\n    var methods = "
  const BindScriptTail: string :=
    ";\n\n    methods.forEach(function(name) {\n        window.__webview__.onBind(name);\n    });\n})()"

  /** The bind script for the names in the given order. */
  function BindScriptText(ser: string -> string, names: seq<string>): string
  {
    BindScriptHead + NameList(ser, names) + BindScriptTail
  }

  /** `code` is a bind script for the name set `keys` in some order. */
  ghost predicate IsBindScriptFor(ser: string -> string, code: string, keys: set<string>)
  {
    exists order :: IsEnumeration(order, keys) && code == BindScriptText(ser, order)
  }

  /** An empty registry gives the empty array literal. */
  lemma EmptyNameList(ser: string -> string, order: seq<string>)
    requires IsEnumeration(order, {})
    ensures NameList(ser, order) == "[]"
  {
    EnumerationLength(order, {});
  }

  /** An enumeration of a set has as many entries as the set has elements,
      so each name appears in the list exactly once. */
  lemma {:induction false} EnumerationLength(order: seq<string>, keys: set<string>)
    requires IsEnumeration(order, keys)
    ensures |order| == |keys|
  {
    if |order| == 0 {
      assert keys == {} by {
        forall x ensures x !in keys {
          assert x !in order;
        }
      }
    } else {
      var last := order[|order| - 1];
      var init := order[..|order| - 1];
      assert last in keys by { assert last in order; }
      forall x
        ensures x in init <==> x in keys - {last}
      {
        if x in init {
          var i :| 0 <= i < |init| && init[i] == x;
          assert order[i] == x;
          assert order[i] != order[|order| - 1];
        }
        if x in keys - {last} {
          assert x in order;
          var i :| 0 <= i < |order| && order[i] == x;
          assert i != |order| - 1;
          assert init[i] == x;
        }
      }
      assert IsEnumeration(init, keys - {last}) by {
        forall i, j | 0 <= i < j < |init| ensures init[i] != init[j] {
          assert init[i] == order[i] && init[j] == order[j];
        }
      }
      EnumerationLength(init, keys - {last});
    }
  }

  /** The script evaluated after a successful `Bind`. */
  function OnBindScript(ser: string -> string, name: string): string
  {
    "if (window.__webview__) {\n       window.__webview__.onBind(" + ser(name) + ")\n    }"
  }

  /** The script evaluated after a successful `Unbind`. */
  function OnUnbindScript(ser: string -> string, name: string): string
  {
    "if (window.__webview__) {\n    window.__webview__.onUnbind(" + ser(name) + ")\n}"
  }

  /** The message of the NOT_FOUND exception thrown by `Unbind`. */
  function UnbindNotFoundMessage(name: string): string
  {
    "trying to unbind undefined binding " + name
  }

  /** Binding a new name and unbinding it again restores the registry, so the
      name set that the bind script is generated from is restored too. */
  lemma BindThenUnbindRestores(bindings: map<string, Handler>, a: string, h: Handler, b: string, g: Handler)
    requires a !in bindings && b !in bindings && a != b
    ensures bindings[a := h][b := g] - {a} == bindings[b := g]
    ensures (bindings[a := h][b := g] - {a}).Keys == bindings.Keys + {b}
  {
  }

  // ---------------------------------------------------------------------

  class Webview {
    /** `js::Serialize` on strings. */
    const serialize: string -> string
    /** `nonce_`: two nonces concatenated, fixed at construction. */
    const nonce: string
    /** The process-wide window counter. */
    const windows: WindowCount.WindowCounter

    var bindings: map<string, Handler>
    var userScripts: seq<Script>
    /** `bind_script_`: the position of the bind script in `user_scripts_`,
        or `None` while it is null. */
    var bindScript: Option<nat>
    var nextId: nat
    /** `promises_->handles_`. */
    var handles: map<string, Cleaner>
    /** `promises_.done_`. */
    var promisesDone: bool

    /** The next id WebView2 will report for a registered script. */
    var nextScriptId: nat
    var engineLog: seq<EngineCall>
    var tasks: seq<Task>

    /** The bind-script position is in range and the script ids, all issued
        before, are pairwise distinct. */
    ghost predicate Valid()
      reads this`userScripts, this`bindScript, this`nextScriptId
    {
      && (bindScript.Some? ==> bindScript.value < |userScripts|)
      && (forall i :: 0 <= i < |userScripts| ==> userScripts[i].id < nextScriptId)
      && (forall i, j :: 0 <= i < j < |userScripts| ==> userScripts[i].id != userScripts[j].id)
    }

    /** The initial state of a `Webview`; the two nonces come from outside. */
    constructor (serialize: string -> string, nonce1: string, nonce2: string, windows: WindowCount.WindowCounter)
      ensures Valid()
      ensures this.serialize == serialize && this.windows == windows
      ensures nonce == nonce1 + nonce2
      ensures bindings == map[] && userScripts == [] && bindScript == None
      ensures nextId == 0 && handles == map[] && !promisesDone
      ensures engineLog == [] && tasks == []
    {
      this.serialize := serialize;
      this.nonce := nonce1 + nonce2;
      this.windows := windows;
      bindings := map[];
      userScripts := [];
      bindScript := None;
      nextId := 0;
      handles := map[];
      promisesDone := false;
      nextScriptId := 0;
      engineLog := [];
      tasks := [];
    }

    /** `GetNonce`: the nonce, read-only. */
    function GetNonce(): (r: string)
      ensures r == nonce
    {
      nonce
    }

    /** `navigate`. */
    method Navigate(url: string)
      modifies this`engineLog
      ensures engineLog == old(engineLog) + [NavigateTo(NavigationTarget(url))]
    {
      engineLog := engineLog + [NavigateTo(NavigationTarget(url))];
    }

    /** `Eval`: the backend executes the script in the page. */
    method Eval(code: string)
      modifies this`engineLog
      ensures engineLog == old(engineLog) + [ExecuteScript(code)]
    {
      engineLog := engineLog + [ExecuteScript(code)];
    }

    /** `Dispatch`: the task is queued for the control thread. */
    method Dispatch(t: Task)
      modifies this`tasks
      ensures tasks == old(tasks) + [t]
    {
      tasks := tasks + [t];
    }

    /** `AddUserScriptImpl`: WebView2 registers the script and reports a new
        id. */
    method AddUserScriptImpl(js: string) returns (s: Script)
      modifies this`nextScriptId, this`engineLog
      ensures s == Script(js, old(nextScriptId)) && nextScriptId == old(nextScriptId) + 1
      ensures engineLog == old(engineLog) + [AddScript(s)]
    {
      s := Script(js, nextScriptId);
      nextScriptId := nextScriptId + 1;
      engineLog := engineLog + [AddScript(s)];
    }

    /** `RemoveAllUserScript`: one removal per script, in list order. */
    method RemoveAllUserScript(scripts: seq<Script>)
      modifies this`engineLog
      ensures engineLog == old(engineLog) + Removals(scripts)
    {
      var i := 0;
      while i < |scripts|
        invariant 0 <= i <= |scripts|
        invariant engineLog == old(engineLog) + Removals(scripts[..i])
      {
        assert Removals(scripts[..i + 1]) == Removals(scripts[..i]) + [RemoveScript(scripts[i].id)];
        engineLog := engineLog + [RemoveScript(scripts[i].id)];
        i := i + 1;
      }
      assert scripts[..i] == scripts;
    }

    /** `add_user_script`: the new script is appended and a pointer to the
        new last element is returned. */
    method AddUserScript(js: string) returns (p: nat)
      requires Valid()
      modifies this`userScripts, this`nextScriptId, this`engineLog
      ensures Valid()
      ensures userScripts == old(userScripts) + [Script(js, old(nextScriptId))]
      ensures p == |userScripts| - 1 == |old(userScripts)|
      ensures nextScriptId == old(nextScriptId) + 1
      ensures engineLog == old(engineLog) + [AddScript(Script(js, old(nextScriptId)))]
    {
      var s := AddUserScriptImpl(js);
      userScripts := userScripts + [s];
      p := |userScripts| - 1;
    }

    /** `init`: the script is added as a user script, after all others. */
    method Init(js: string)
      requires Valid()
      modifies this`userScripts, this`nextScriptId, this`engineLog
      ensures Valid()
      ensures userScripts == old(userScripts) + [Script(js, old(nextScriptId))]
      ensures nextScriptId == old(nextScriptId) + 1
      ensures engineLog == old(engineLog) + [AddScript(Script(js, old(nextScriptId)))]
    {
      var _ := AddUserScript(js);
    }

    /** `replace_user_script`, called with the script at position `k` of the
        list (its only caller passes `*bind_script_`). All scripts are
        removed from WebView2 and re-registered in order; the one equal to
        the old script gets the new code. As in the source, the old script is
        a reference into the list, so it is compared in its current state. */
    method ReplaceUserScript(k: nat, newCode: string) returns (p: Option<nat>)
      requires Valid() && k < |userScripts|
      modifies this`userScripts, this`nextScriptId, this`engineLog
      ensures Valid()
      ensures |userScripts| == |old(userScripts)|
      ensures forall i :: 0 <= i < |userScripts| ==>
        userScripts[i] == Script(if i == k then newCode else old(userScripts)[i].code, old(nextScriptId) + i)
      ensures nextScriptId == old(nextScriptId) + |userScripts|
      ensures engineLog == old(engineLog) + Removals(old(userScripts)) + Additions(userScripts)
      ensures p == Some(k)
    {
      RemoveAllUserScript(userScripts);
      ghost var orig := userScripts;
      ghost var log0 := engineLog;
      ghost var id0 := nextScriptId;
      p := None;
      var i := 0;
      while i < |userScripts|
        invariant |userScripts| == |orig| && 0 <= i <= |orig|
        invariant nextScriptId == id0 + i
        invariant forall j :: 0 <= j < i ==>
          userScripts[j] == Script(if j == k then newCode else orig[j].code, id0 + j)
        invariant forall j :: i <= j < |orig| ==> userScripts[j] == orig[j]
        invariant |engineLog| == |log0| + i && engineLog[..|log0|] == log0
        invariant forall j :: 0 <= j < i ==> engineLog[|log0| + j] == AddScript(userScripts[j])
        invariant p == (if i > k then Some(k) else None)
      {
        var isOld := ScriptsEqual(userScripts[i], userScripts[k]);
        assert isOld <==> i == k by {
          if i < k {
            assert userScripts[i] == orig[i] && userScripts[k] == orig[k];
          } else if i > k {
            assert userScripts[k].id == id0 + k;
            assert orig[i].id < id0;
          }
        }
        var s := AddUserScriptImpl(if isOld then newCode else userScripts[i].code);
        userScripts := userScripts[i := s];
        if isOld {
          p := Some(i);
        }
        i := i + 1;
      }
      assert engineLog == log0 + Additions(userScripts);
    }

    /** `create_bind_script`: the names are visited in the map's (unspecified)
        iteration order, `order`; the first is not preceded by a comma. */
    method CreateBindScript() returns (code: string, ghost order: seq<string>)
      ensures IsEnumeration(order, bindings.Keys)
      ensures code == BindScriptText(serialize, order)
      ensures IsBindScriptFor(serialize, code, bindings.Keys)
    {
      var names := "[";
      var first := true;
      var remaining := bindings.Keys;
      order := [];
      while remaining != {}
        invariant remaining <= bindings.Keys
        invariant forall i, j :: 0 <= i < j < |order| ==> order[i] != order[j]
        invariant forall x :: x in order <==> x in bindings.Keys - remaining
        invariant first <==> order == []
        invariant names == "[" + CommaJoin(serialize, order)
        decreases remaining
      {
        var n :| n in remaining;
        assert n !in order;
        if first {
          first := false;
        } else {
          names := names + ",";
        }
        names := names + serialize(n);
        order := order + [n];
        remaining := remaining - {n};
      }
      names := names + "]";
      code := BindScriptHead + names + BindScriptTail;
    }

    /** `replace_bind_script`: regenerates the bind script from the current
        names; swaps it in place when there is one, appends it otherwise. */
    method ReplaceBindScript()
      requires Valid()
      modifies this`userScripts, this`bindScript, this`nextScriptId, this`engineLog
      ensures Valid() && bindScript.Some?
      ensures IsBindScriptFor(serialize, userScripts[bindScript.value].code, bindings.Keys)
      ensures old(bindScript).None? ==> |userScripts| == |old(userScripts)| + 1 && bindScript == Some(|old(userScripts)|)
      ensures old(bindScript).Some? ==> |userScripts| == |old(userScripts)| && bindScript == old(bindScript)
      ensures forall i :: 0 <= i < |old(userScripts)| && Some(i) != bindScript ==>
        userScripts[i].code == old(userScripts)[i].code
      ensures |engineLog| >= |old(engineLog)| && engineLog[..|old(engineLog)|] == old(engineLog)
      ensures NoEval(engineLog[|old(engineLog)|..])
    {
      var code, order := CreateBindScript();
      ghost var before := userScripts;
      if bindScript.Some? {
        var p := ReplaceUserScript(bindScript.value, code);
        bindScript := p;
        RegistrationsEvaluateNothing(before, userScripts);
      } else {
        var p := AddUserScript(code);
        bindScript := Some(p);
        RegistrationsEvaluateNothing([], [userScripts[p]]);
      }
      assert userScripts[bindScript.value].code == BindScriptText(serialize, order);
    }

    /** `Bind`: a name already bound is refused with DUPLICATE and nothing
        changes; otherwise the handler is stored, the bind script regenerated
        and one `onBind` notification evaluated. */
    method Bind(name: string, handler: Handler) returns (thrown: Option<Exception>)
      requires Valid()
      modifies this`bindings, this`userScripts, this`bindScript, this`nextScriptId, this`engineLog
      ensures Valid()
      ensures name in old(bindings) ==>
        && thrown == Some(NewException(Duplicate, name))
        && bindings == old(bindings) && userScripts == old(userScripts)
        && bindScript == old(bindScript) && engineLog == old(engineLog)
      ensures name !in old(bindings) ==>
        && thrown == None
        && bindings == old(bindings)[name := handler]
        && bindScript.Some?
        && IsBindScriptFor(serialize, userScripts[bindScript.value].code, bindings.Keys)
        && (old(bindScript).None? ==> |userScripts| == |old(userScripts)| + 1 && bindScript == Some(|old(userScripts)|))
        && (old(bindScript).Some? ==> |userScripts| == |old(userScripts)| && bindScript == old(bindScript))
        && (forall i :: 0 <= i < |old(userScripts)| && Some(i) != bindScript ==>
              userScripts[i].code == old(userScripts)[i].code)
        && |engineLog| > |old(engineLog)| && engineLog[..|old(engineLog)|] == old(engineLog)
        && NoEval(engineLog[|old(engineLog)|..|engineLog| - 1])
        && engineLog[|engineLog| - 1] == ExecuteScript(OnBindScript(serialize, name))
    {
      if name in bindings {
        return Some(NewException(Duplicate, name));
      }
      bindings := bindings[name := handler];
      thrown := None;
      ReplaceBindScript();
      ghost var mid := engineLog;
      Eval(OnBindScript(serialize, name));
      assert engineLog[|old(engineLog)|..|engineLog| - 1] == mid[|old(engineLog)|..];
    }

    /** `unbind`: a name not bound is refused with NOT_FOUND before anything
        changes; otherwise exactly that entry is removed, the bind script
        regenerated and one `onUnbind` notification evaluated. */
    method Unbind(name: string) returns (thrown: Option<Exception>)
      requires Valid()
      modifies this`bindings, this`userScripts, this`bindScript, this`nextScriptId, this`engineLog
      ensures Valid()
      ensures name !in old(bindings) ==>
        && thrown == Some(NewException(NotFound, UnbindNotFoundMessage(name)))
        && bindings == old(bindings) && userScripts == old(userScripts)
        && bindScript == old(bindScript) && engineLog == old(engineLog)
      ensures name in old(bindings) ==>
        && thrown == None
        && bindings == old(bindings) - {name}
        && bindScript.Some?
        && IsBindScriptFor(serialize, userScripts[bindScript.value].code, bindings.Keys)
        && (old(bindScript).None? ==> |userScripts| == |old(userScripts)| + 1 && bindScript == Some(|old(userScripts)|))
        && (old(bindScript).Some? ==> |userScripts| == |old(userScripts)| && bindScript == old(bindScript))
        && (forall i :: 0 <= i < |old(userScripts)| && Some(i) != bindScript ==>
              userScripts[i].code == old(userScripts)[i].code)
        && |engineLog| > |old(engineLog)| && engineLog[..|old(engineLog)|] == old(engineLog)
        && NoEval(engineLog[|old(engineLog)|..|engineLog| - 1])
        && engineLog[|engineLog| - 1] == ExecuteScript(OnUnbindScript(serialize, name))
    {
      if name !in bindings {
        return Some(NewException(NotFound, UnbindNotFoundMessage(name)));
      }
      bindings := bindings - {name};
      thrown := None;
      ReplaceBindScript();
      ghost var mid := engineLog;
      Eval(OnUnbindScript(serialize, name));
      assert engineLog[|old(engineLog)|..|engineLog| - 1] == mid[|old(engineLog)|..];
    }

    /** `on_message`: a malformed message or an unknown method throws and
        queues nothing; otherwise the handler bound to `method` is queued
        with the message's id and params unchanged. */
    method OnMessage(msg: Option<Message>) returns (thrown: Option<Thrown>)
      modifies this`tasks
      ensures msg.None? ==> thrown == Some(ParseError) && tasks == old(tasks)
      ensures msg.Some? && msg.value.name !in bindings ==> thrown == Some(OutOfRange) && tasks == old(tasks)
      ensures msg.Some? && msg.value.name in bindings ==>
        thrown == None && tasks == old(tasks) + [RunBinding(bindings[msg.value.name], msg.value.id, msg.value.params)]
    {
      if msg.None? {
        return Some(ParseError);
      }
      var m := msg.value;
      if m.name !in bindings {
        return Some(OutOfRange);
      }
      Dispatch(RunBinding(bindings[m.name], m.id, m.params));
      thrown := None;
    }

    /** The wrapper that `Bind` stores, run for one invocation with id `id`.
        `args` is the outcome of parsing the JSON arguments. `completion` is
        `Some(o)` when the handler's promise chain already finished with `o`
        while the wrapper was built (its cleanup then runs before the save),
        and `None` when it is still pending (the save runs first; the rest
        is `CompleteInvocation`). */
    method InvokeBinding(id: string, args: ArgsParse, completion: Option<Outcome>)
      modifies this`tasks, this`handles
      ensures promisesDone ==>
        tasks == old(tasks) + [EvalScript(ReplyScript(TerminatedReply(serialize, id)))] && handles == old(handles)
      ensures !promisesDone && args.ArgsFailed? ==>
        tasks == old(tasks) + [EvalScript(ReplyScript(SyncCatchReply(serialize, id, args.failure)))]
        && handles == old(handles)
      ensures !promisesDone && args.ArgsOk? && completion.Some? ==>
        tasks == old(tasks) + [EvalScript(ReplyScript(AsyncReply(serialize, id, completion.value)))]
        && handles == SaveStep(CleanupStep(old(handles), id).handles, id, CleanupStep(old(handles), id).ended)
      ensures !promisesDone && args.ArgsOk? && completion.None? ==>
        tasks == old(tasks) && handles == SaveStep(old(handles), id, false)
    {
      if promisesDone {
        Dispatch(EvalScript(ReplyScript(TerminatedReply(serialize, id))));
        return;
      }
      if args.ArgsFailed? {
        Dispatch(EvalScript(ReplyScript(SyncCatchReply(serialize, id, args.failure))));
        return;
      }
      var ended := false;
      if completion.Some? {
        Dispatch(EvalScript(ReplyScript(AsyncReply(serialize, id, completion.value))));
        ended := Cleanup(id);
      }
      // Save the promise if not ended; `emplace` keeps an existing entry.
      if !ended && id !in handles {
        handles := handles[id := NewCleaner(id)];
      }
    }

    /** The end of the promise chain of an invocation whose handle was saved:
        the reply is queued, then the cleanup continuation runs. */
    method CompleteInvocation(id: string, o: Outcome) returns (ended: bool)
      modifies this`tasks, this`handles
      ensures tasks == old(tasks) + [EvalScript(ReplyScript(AsyncReply(serialize, id, o)))]
      ensures handles == CleanupStep(old(handles), id).handles && id !in handles
      ensures ended == CleanupStep(old(handles), id).ended
    {
      Dispatch(EvalScript(ReplyScript(AsyncReply(serialize, id, o))));
      ended := Cleanup(id);
    }

    /** The cleanup continuation: detaches and erases a saved handle, or
        reports that none was saved yet (`ended`). */
    method Cleanup(id: string) returns (ended: bool)
      modifies this`handles
      ensures handles == CleanupStep(old(handles), id).handles
      ensures ended == CleanupStep(old(handles), id).ended
    {
      if id in handles {
        handles := handles - {id};
        ended := false;
      } else {
        ended := true;
      }
    }

    /** Marks the pending table done, as the shutdown path does before it
        drains; from then on invocations only answer "Terminated". */
    method BeginShutdown()
      modifies this`promisesDone
      ensures promisesDone
    {
      promisesDone := true;
    }

    /** `on_window_created`. */
    method OnWindowCreated()
      requires windows.Valid()
      modifies windows
      ensures windows.Valid() && windows.count == WindowCount.IncCount(old(windows.count))
    {
      var _ := windows.Inc();
    }

    /** `on_window_destroyed`: decrements the window count and terminates
        when it reaches zero, unless termination is skipped. */
    method OnWindowDestroyed(skipTermination: bool)
      requires windows.Valid()
      modifies windows, this`engineLog
      ensures windows.Valid() && windows.count == WindowCount.DecCount(old(windows.count))
      ensures windows.count == 0 && !skipTermination ==> engineLog == old(engineLog) + [PostQuit]
      ensures !(windows.count == 0 && !skipTermination) ==> engineLog == old(engineLog)
    {
      var n := windows.Dec();
      if n <= 0 && !skipTermination {
        Terminate();
      }
    }

    /** `Terminate`: the Win32 backend posts a quit message. */
    method Terminate()
      modifies this`engineLog
      ensures engineLog == old(engineLog) + [PostQuit]
    {
      engineLog := engineLog + [PostQuit];
    }
  }
}

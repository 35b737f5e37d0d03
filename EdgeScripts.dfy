/** The user-script values the WebView2 backend hands to the engine
    (src/backends/win32_edge.cpp, `AddUserScriptImpl`, `RemoveAllUserScript`,
    `AreUserScriptsEqual`) and the calls the engine makes into WebView2. */
module EdgeScripts {

  /** An injected script: its code and the id WebView2 reported for it. The
      id is abstracted to a number; distinct registrations get distinct ids. */
  datatype Script = Script(code: string, id: nat)

  /** `AreUserScriptsEqual`: two scripts are the same script when their ids
      are equal; the code is not compared. */
  predicate ScriptsEqual(first: Script, second: Script)
  {
    first.id == second.id
  }

  /** Script equality is an equivalence that ignores the code. */
  lemma ScriptsEqualIsIdEquality(a: Script, b: Script, c: Script, code: string)
    ensures ScriptsEqual(a, a)
    ensures ScriptsEqual(a, b) ==> ScriptsEqual(b, a)
    ensures ScriptsEqual(a, b) && ScriptsEqual(b, c) ==> ScriptsEqual(a, c)
    ensures ScriptsEqual(a, Script(code, a.id))
    ensures ScriptsEqual(a, b) <==> a.id == b.id
  {
  }

  /** Calls made into the hosting WebView2 control and the window system. */
  datatype EngineCall =
    | ExecuteScript(code: string)      // ICoreWebView2::ExecuteScript (`Eval`)
    | AddScript(script: Script)        // AddScriptToExecuteOnDocumentCreated, with the id it reported
    | RemoveScript(id: nat)            // RemoveScriptToExecuteOnDocumentCreated
    | NavigateTo(url: string)          // ICoreWebView2::Navigate
    | PostQuit                         // PostQuitMessage(0), the backend's `Terminate`

  /** The removal calls for a list of scripts, in list order. */
  function Removals(scripts: seq<Script>): (r: seq<EngineCall>)
    ensures |r| == |scripts|
    ensures forall i :: 0 <= i < |r| ==> r[i] == RemoveScript(scripts[i].id)
  {
    seq(|scripts|, i requires 0 <= i < |scripts| => RemoveScript(scripts[i].id))
  }

  /** The registration calls that produced a list of scripts, in list order. */
  function Additions(scripts: seq<Script>): (r: seq<EngineCall>)
    ensures |r| == |scripts|
    ensures forall i :: 0 <= i < |r| ==> r[i] == AddScript(scripts[i])
  {
    seq(|scripts|, i requires 0 <= i < |scripts| => AddScript(scripts[i]))
  }

  /** A stretch of engine calls that evaluates no script. */
  predicate NoEval(calls: seq<EngineCall>)
  {
    forall i :: 0 <= i < |calls| ==> !calls[i].ExecuteScript?
  }

  /** Re-registering scripts evaluates nothing. */
  lemma RegistrationsEvaluateNothing(removed: seq<Script>, added: seq<Script>)
    ensures NoEval(Removals(removed) + Additions(added))
  {
    var calls := Removals(removed) + Additions(added);
    forall i | 0 <= i < |calls|
      ensures !calls[i].ExecuteScript?
    {
      if i < |removed| {
        assert calls[i] == Removals(removed)[i];
      } else {
        assert calls[i] == Additions(added)[i - |removed|];
      }
    }
  }
}

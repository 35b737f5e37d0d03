# A verified model of the webview bridge core

This project models the engine-independent core of the `webview` library and
the non-UI logic of its WebView2 (Win32 Edge) backend:

- the binding registry: `Bind` and `unbind` with their DUPLICATE and
  NOT_FOUND errors;
- the user-script list and the bind script that is regenerated from the bound
  names;
- the routing of page messages to bound handlers;
- the `onReply` protocol with which a handler's outcome reaches the page;
- the table of pending invocation handles and the save/cleanup handshake
  around it;
- the process-wide window counter, which terminates the program after the
  last window closes;
- the error taxonomy (`error_t`, `ErrorInfo`, `Exception`);
- the move semantics of `user_script`;
- in the WebView2 backend:
  - the environment-creation retry state machine;
  - COM reference counting;
  - window size hints;
  - the null-checked accessors;
  - the custom-scheme resource handlers: filter rewrite, handler ordering,
    first-match dispatch, response headers and the memoised request-body
    reader.

Modules, one per file:

- `Errors`: the error codes and exception values.
- `UserScripts`: the `user_script` class and its move operations.
- `EdgeScripts`: script values and the log of calls into WebView2.
- `Replies`: reply payloads and the pending-handle handshake as pure
  functions.
- `WindowCount`: the 32-bit window counter.
- `Bridge`: the `Webview` class (bindings, user scripts, messages,
  invocations) with the backend's script calls merged in.
- `Hints` and `Win32Edge`: the backend's COM handler, ref counts and size
  hints.
- `Resources`: the resource handlers.

What the engine does to the page or the window system is recorded in order as
a log: `engineLog` holds script executions, script registrations and removals,
navigations and the quit message. `tasks` holds the work queued with
`Dispatch`. JSON serialisation is an arbitrary function `string -> string`
fixed at construction. Results of foreign calls (HRESULTs of WebView2 and COM)
are parameters.

## Model

| member | source | states |
|---|---|---|
| Errors.Value | include/webview/errors.h:50-70 | the nine enumerators have the values -5..3; only OK is 0, exactly the five error codes are negative |
| Errors.FromValue | include/webview/errors.h:50-70 | an integer names an enumerator exactly when it lies in -5..3 |
| Errors.FromValueOfValue | include/webview/errors.h:50-70 | decoding the value of a code returns that code |
| Errors.ValuesDistinct | include/webview/errors.h:50-70 | distinct codes have distinct values |
| Errors.NewErrorInfo | include/webview/errors.h:74-80 | `Code()` and `Message()` return exactly the code and message given; the message defaults to empty |
| Errors.DefaultErrorInfo | include/webview/errors.h:77-84 | a default `ErrorInfo` carries UNSPECIFIED and an empty message |
| Errors.FromInfoWithCause | include/webview/errors.h:95-99 | the exception holds the given info and keeps the given cause |
| Errors.FromInfo | include/webview/errors.h:101-102 | the exception holds the given info and no cause |
| Errors.WithCause | include/webview/errors.h:89-90 | equals the info-and-cause constructor on `ErrorInfo{code, msg}`; `what()` is the message and the cause is kept |
| Errors.NewException | include/webview/errors.h:92-93 | equals `Exception(ErrorInfo{code, msg})` and the three-argument form with no cause; `what()` is the message |
| Errors.DefaultException | include/webview/errors.h:104-113 | a default exception carries a default `ErrorInfo` (UNSPECIFIED), no cause and an empty `what()` |
| UserScripts.UserScript.constructor | src/user_script.cpp:30-32 | stores the given code and handle |
| UserScripts.UserScript.Moved | src/user_script.cpp:34-36 | default members followed by a move assignment: the new script has the source's code and handle, and the source has no handle |
| UserScripts.UserScript.MoveAssign | src/user_script.cpp:38-46 | self-assignment changes nothing; otherwise the target takes the source's code and handle and the source loses its handle |
| EdgeScripts.ScriptsEqualIsIdEquality | src/backends/win32_edge.cpp:987-992 | script equality is id equality: an equivalence that ignores the code |
| EdgeScripts.Removals | src/backends/win32_edge.cpp:979-985 | one removal per script, carrying that script's id, in list order |
| EdgeScripts.Additions | src/engine_base.cpp:80-86 | one registration per script, in list order |
| EdgeScripts.RegistrationsEvaluateNothing | src/engine_base.cpp:76-88 | removing and re-registering scripts executes no script in the page |
| Replies.AsyncReply | include/webview/detail/engine_base.inl:81-142 | reply id is the serialised id; status 0 exactly for a resolved handler; payload `undefined` for void, the serialised result for a value, and the failure payload of each catch clause otherwise |
| Replies.SyncCatchReply | include/webview/detail/engine_base.inl:174-195 | a synchronous failure replies with the serialised id and status 1 |
| Replies.TerminatedReply | include/webview/detail/engine_base.inl:56-64 | once the pending table is done, the reply has status 1 and the serialised "Terminated webview !" |
| Replies.FailureEncodingAgrees | include/webview/detail/engine_base.inl:105-195 | each kind of failure gets the same reply from the synchronous catch clauses as from the asynchronous `Catch` chain |
| Replies.ParseReply | include/webview/detail/engine_base.inl:56-195 | whatever the page reads back from a script, knowing the id, is a reply with that id and a status of 0 or 1 whose script is exactly the text read |
| Replies.ParseReplyScript | include/webview/detail/engine_base.inl:56-195 | every reply with status 0 or 1 is read back exactly from its script, so the script and the id determine the status and the payload |
| Replies.RepliesAreReadBack | include/webview/detail/engine_base.inl:56-195 | the asynchronous, synchronous-catch and terminated replies all reach the page intact, and the status read back is 1 exactly for a failed outcome |
| Replies.NewCleaner | include/webview/detail/engine_base.h:206-230 | a new cleaner keeps its name and starts with `detached_` false |
| Replies.CleanupStep | include/webview/detail/engine_base.inl:143-159 | a saved handle is detached and erased; otherwise `ended` is set; afterwards the id is absent |
| Replies.SaveStep | include/webview/detail/engine_base.inl:162-170 | the wrapper is saved under its id only when `ended` is false; other entries are kept |
| Replies.HandshakeLeavesNoEntry | include/webview/detail/engine_base.inl:143-170 | in either order of save and cleanup, the table ends as it began with no entry for the id, and the handle is detached exactly when the save came first |
| WindowCount.IncCount | src/engine_base.cpp:257-260 | the increment wraps to 0 at 2^32 |
| WindowCount.DecCount | src/engine_base.cpp:262-269 | the decrement is one less, but 0 stays 0 |
| WindowCount.TerminatesIffLastWindow | src/engine_base.cpp:244-249 | destruction terminates exactly when at most one window was counted and termination is not skipped |
| WindowCount.IncThenDec | src/engine_base.cpp:257-269 | creating and then destroying a window restores the count, unless it wrapped |
| WindowCount.WindowCounter.constructor | src/engine_base.cpp:251-255 | the counter starts at 0 |
| WindowCount.WindowCounter.Inc | src/engine_base.cpp:257-260 | increments with wrap-around and returns the new value |
| WindowCount.WindowCounter.Dec | src/engine_base.cpp:262-269 | decrements unless 0 and returns the new value |
| Bridge.NavigationTarget | src/engine_base.cpp:36-43 | the empty URL becomes about:blank; any other URL is unchanged |
| Bridge.EmptyNameList | src/engine_base.cpp:191-203 | with no bindings the name list is `[]` |
| Bridge.EnumerationLength | src/engine_base.cpp:194-202 | the names are visited once each: an enumeration has one entry per bound name |
| Bridge.BindThenUnbindRestores | src/engine_base.cpp:46-54 | binding a new name and unbinding it restores the registry it was added to |
| Bridge.Webview.constructor | include/webview/detail/engine_base.h:191-201 | no bindings, no scripts, a null bind script, `next_id_` 0, an empty pending table; the nonce is two nonces concatenated |
| Bridge.Webview.GetNonce | include/webview/detail/engine_base.h:158 | returns the nonce fixed at construction |
| Bridge.Webview.Navigate | src/engine_base.cpp:36-43 | navigates to about:blank for the empty URL and to the URL otherwise |
| Bridge.Webview.Eval | src/backends/win32_edge.cpp:938-944 | executes exactly the given script |
| Bridge.Webview.Dispatch | src/backends/win32_edge.cpp:614-617 | queues exactly the given task, after all earlier ones |
| Bridge.Webview.AddUserScriptImpl | src/backends/win32_edge.cpp:951-977 | registers the code once and returns a script with that code and a fresh id |
| Bridge.Webview.RemoveAllUserScript | src/backends/win32_edge.cpp:979-985 | issues one removal per script, in list order, and nothing else |
| Bridge.Webview.AddUserScript | src/engine_base.cpp:71-74 | appends the registered script to the list and returns the position of the new last element |
| Bridge.Webview.Init | src/engine_base.cpp:66-69 | adds the script as the last user script |
| Bridge.Webview.ReplaceUserScript | src/engine_base.cpp:76-88 | removes every script, then re-registers each in order with its own code, except the old script, which gets the new code; returns the old script's position; ids stay distinct |
| Bridge.Webview.CreateBindScript | src/engine_base.cpp:191-216 | the script names every bound name exactly once, comma separated, in the map's iteration order |
| Bridge.Webview.ReplaceBindScript | src/engine_base.cpp:90-97 | afterwards the bind script is a bind script for the current names; it is appended when absent and replaced in place otherwise; no other script's code changes and no script is executed |
| Bridge.Webview.Bind | include/webview/detail/engine_base.inl:44-212 | a bound name is refused with DUPLICATE and nothing changes; otherwise the handler is stored and the bind script regenerated: appended as the new last script when there was none, replaced in place otherwise, with every other script keeping its code; the `onBind` notification is the only script executed |
| Bridge.Webview.Unbind | src/engine_base.cpp:45-64 | an unbound name is refused with NOT_FOUND and the fixed message, and nothing changes; otherwise exactly that entry goes and the bind script is regenerated: appended as the new last script when there was none, replaced in place otherwise, with every other script keeping its code; `onUnbind` is the only script executed |
| Bridge.Webview.OnMessage | src/engine_base.cpp:230-237 | a malformed message or an unbound method throws and queues nothing; otherwise the bound handler is queued with the message's id and params |
| Bridge.Webview.InvokeBinding | include/webview/detail/engine_base.inl:50-196 | after shutdown only the Terminated reply is queued; an argument failure gets the synchronous catch reply; an inline completion queues its reply and runs the cleanup before the save; a pending chain saves its handle |
| Bridge.Webview.CompleteInvocation | include/webview/detail/engine_base.inl:81-159 | the reply for the outcome is queued, then the cleanup runs and the handle is gone |
| Bridge.Webview.Cleanup | include/webview/detail/engine_base.inl:143-159 | erases a saved handle or reports `ended` |
| Bridge.Webview.BeginShutdown | include/webview/detail/engine_base.h:162-181 | the pending table is marked done |
| Bridge.Webview.OnWindowCreated | src/engine_base.cpp:239-242 | the window count is incremented |
| Bridge.Webview.OnWindowDestroyed | src/engine_base.cpp:244-249 | the count is decremented, and the backend quits exactly when it reaches 0 and termination is not skipped |
| Bridge.Webview.Terminate | src/backends/win32_edge.cpp:609-612 | posts the quit message |
| Win32Edge.RetryRun | src/backends/win32_edge.cpp:168-191 | attempts stay within the limit; the run stops at the first success or ERROR_INVALID_STATE, and gives up only at the limit, after every attempt failed otherwise |
| Win32Edge.FreshHandlerRetries | src/backends/win32_edge.cpp:168-191 | a fresh handler attempts at most five times and gives up exactly when all five attempts fail with a retryable error |
| Win32Edge.ComHandler.constructor | include/webview/detail/backends/win32_edge.h:143-144 | no attempts yet, at most five |
| Win32Edge.ComHandler.TryCreateEnvironment | src/backends/win32_edge.cpp:168-191 | ends in the state `RetryRun` computes; the callback receives two nulls exactly when it gives up |
| Win32Edge.ComHandler.EnvironmentCompleted | src/backends/win32_edge.cpp:96-103 | success requests the controller and returns that request's result; failure retries as `RetryRun` says, delivers the give-up callback exactly when the retries give up, and returns S_OK |
| Win32Edge.ComHandler.ControllerCompleted | src/backends/win32_edge.cpp:105-128 | ERROR_INVALID_STATE and E_ABORT return without retrying, other failures retry, success delivers the controller once; always S_OK |
| Win32Edge.AfterRelease | src/backends/win32_edge.cpp:59-66 | a count above one is decremented; otherwise the object is deleted |
| Win32Edge.ReleasesToDelete | src/backends/win32_edge.cpp:59-66 | an object with count c survives c-1 releases and is deleted by the c-th |
| Win32Edge.ComRefCount.constructor | include/webview/detail/backends/win32_edge.h:141 | the count starts at 1 |
| Win32Edge.ComRefCount.AddRef | src/backends/win32_edge.cpp:54-57 | increments the 32-bit count and returns the new value |
| Win32Edge.ComRefCount.Release | src/backends/win32_edge.cpp:59-66 | decrements and returns the new count while it is above 1; otherwise deletes the object and returns 0 |
| Win32Edge.ApplyMinMax | src/backends/win32_edge.cpp:344-353 | each bound is applied only when both of its components are positive; otherwise the system's value stays |
| Win32Edge.UnsetBoundsChangeNothing | src/backends/win32_edge.cpp:344-353 | the initial (0, 0) bounds leave the system's values untouched |
| Win32Edge.EdgeWindow.constructor | include/webview/detail/backends/win32_edge.h:270-271 | both bounds start at (0, 0) |
| Win32Edge.EdgeWindow.SetSize | src/backends/win32_edge.cpp:624-664 | the style follows the hint; only MAX and STATIC set the maximum, only MIN and STATIC the minimum, and the window is resized unless the hint is MAX or MIN |
| Win32Edge.StaticPinsSize | src/backends/win32_edge.cpp:344-353 | after a positive STATIC size, the maximum and both tracking bounds are that size |
| Win32Edge.RequireHandle | src/backends/win32_edge.cpp:584-607 | a present handle is returned; a null one throws INVALID_STATE with an empty message |
| Resources.GlobAsWritten | src/backends/win32_edge.cpp:752-767 | the empty filter gives the empty pattern; otherwise the pattern ends with the filter's last character and is one longer than the trailing run of wildcards |
| Resources.RewriteGlobAsWritten | src/backends/win32_edge.cpp:752-767 | the loop computes `GlobAsWritten`; `pop_back` is reached only on a non-empty result |
| Resources.LiteralEndCollapses | src/backends/win32_edge.cpp:762-764 | a filter that does not end in a wildcard becomes its last character alone |
| Resources.AsWrittenLosesTheFilter | src/backends/win32_edge.cpp:752-767 | the filter "app://index.html" becomes the pattern "l" |
| Resources.RewriteGlob | src/backends/win32_edge.cpp:752-767 | the corrected loop computes `GlobToRegex` |
| Resources.LiteralFilterIsItsOwnRegex | src/backends/win32_edge.cpp:752-767 | the corrected rewrite maps a filter without wildcards to itself |
| Resources.GlobPrefixLength | src/backends/win32_edge.cpp:752-767 | the corrected rewrite keeps every character and adds one dot per unescaped wildcard |
| Resources.IntString | src/backends/win32_edge.cpp:741-749 | the decimal text of an HRESULT is non-empty and starts with '-' exactly for negative values |
| Resources.IntStringRoundTrip | src/backends/win32_edge.cpp:741-749 | the decimal text determines the value |
| Resources.UpperBound | include/webview/detail/backends/win32_edge.h:220 | the insertion point follows every entry whose pattern is not greater than the key and precedes the first greater one |
| Resources.InsertAt | src/backends/win32_edge.cpp:769 | insertion keeps every existing entry in order, shifting those after the new one by one place, and adds exactly one entry |
| Resources.InsertAtKeepsOrder | src/backends/win32_edge.cpp:769 | inserting between the entries not above and the entries not below the new pattern keeps the table ordered |
| Resources.InsertKeepsOrder | src/backends/win32_edge.cpp:769 | inserting at the upper bound, as `emplace` does, keeps the table ordered by pattern |
| Resources.NewEntryBeforeGreater | src/backends/win32_edge.cpp:769 | no entry at or after the insertion point is less than the new pattern |
| Resources.EqualPatternsStayAhead | src/backends/win32_edge.cpp:769 | entries already holding the new pattern stay, ahead of the new one: nothing is replaced |
| Resources.FirstMatchFrom | src/backends/win32_edge.cpp:798-813 | the first handler in iteration order whose pattern matches; none when no pattern matches |
| Resources.UrlHandlers.Register | src/backends/win32_edge.cpp:735-770 | a refused filter throws UNSPECIFIED with the fixed message and adds no handler; an accepted one inserts the rewritten pattern without replacing anything |
| Resources.UrlHandlers.HandleRequest | src/backends/win32_edge.cpp:778-813 | a failed context lookup returns its error; otherwise the first matching handler answers and its result is returned; no match returns S_OK |
| Resources.TerminatedIsBlockAndCrlf | src/backends/win32_edge.cpp:844-852 | the accumulated "k: v\r\n" lines, without their last two characters, are the lines joined by CRLF |
| Resources.QueriedInterface | src/backends/win32_edge.cpp:834 | `wv22` is non-null exactly when QueryInterface succeeded |
| Resources.BuildHeaders | src/backends/win32_edge.cpp:844-852 | the loop and the two `pop_back` calls give the header lines joined by CRLF |
| Resources.MakeResponseAsWritten | src/backends/win32_edge.cpp:828-865 | in the written order, `get_Environment` goes through a null `wv22` exactly when QueryInterface failed, E_NOINTERFACE included; the error is then returned with no response |
| Resources.MakeResponse | src/backends/win32_edge.cpp:828-865 | a QueryInterface failure returns its error and no response, before the environment is used; otherwise the response carries the body, status, reason and joined headers, and the creation result is returned |
| Resources.DrainKeepsConsumedChunks | src/backends/win32_edge.cpp:889-895 | the body is exactly the chunks read, every one before the last is a full buffer, and reading stops at the first short chunk |
| Resources.ShortReadTruncates | src/backends/win32_edge.cpp:889-895 | a short read in front of more content ends the body there, so the body is shorter than the content |
| Resources.StreamIsReadWhole | src/backends/win32_edge.cpp:889-895 | from a stream that fills every buffer until its end, the whole content is read, with one call per full buffer plus one |
| Resources.ContentReader.constructor | src/backends/win32_edge.cpp:877 | the memo starts empty |
| Resources.ContentReader.GetContent | src/backends/win32_edge.cpp:877-897 | a non-empty memo is returned without reading; a null stream returns the empty memo; otherwise the chunks the stream delivers are appended up to and including the first one shorter than 1024 bytes, and the stream is left after it; `Read`'s HRESULT is ignored |

## Left out

- Window, widget and message-window creation, the window procedures other than the WM_GETMINMAXINFO rule, and the message loop. This is Win32 UI and I/O.
- DPI scaling, theming, show, hide and focus. `SetSize` records the logical size passed on; scaling it and adding the frame happen in the window system.
- The WebView2 and COM calls themselves: `Navigate`, `ExecuteScript`, `get_CoreWebView2`, the event registrations, `SHCreateMemStream`, the options and environment objects. Their effects are log entries and their results are parameters.
- Locks, the condition variable and the busy wait in `AddUserScriptImpl`. The handshake they protect is modelled as its two sequential orderings.
- The promise and coroutine library and the JSON library. They are not part of this model: serialisation is an uninterpreted function, parsing is an `Option` or `ArgsParse` given from outside, and a handler's outcome is a parameter.
- `PromisesCleaner` and the shutdown drain. Their bodies are not part of this model, and `Bridge.Webview.BeginShutdown` stands in for the moment the table is marked done.
- `Call`, `reverse_bindings_` and nonce checks on incoming messages. The files modelled here do not implement them.
- The JavaScript text of `create_init_script` and `add_init_script`. Only `post_fn` is substituted into a fixed text.
- `std::regex_match`. The resource handler takes it as an abstract predicate.
- include/webview/detail/exceptions.h. Its constructors are private and the engine throws `Exception` instead.
- include/webview/detail/platform/windows/shcore.h. It only declares DLL symbols.
- `InstallResourceHandler`'s own failure path, which throws when `add_WebResourceRequested` fails. It is a plain throw of UNSPECIFIED.
- `HandleWindow`, which only stores the window and calls `TryCreateEnvironment`.
- The permission and web-message handlers of the COM handler.
- Bridge.Webview.AddUserScriptImpl: WebView2 reports ids asynchronously. A failed registration, which yields an empty id, is not modelled: every registration succeeds with a fresh id.
- UserScripts.UserScript.MoveAssign: a moved-from `std::string` is only valid but unspecified. The model states it becomes empty.
- Resources.LexLess: `std::wstring` compares UTF-16 code units, while the model compares characters. The two orders differ only outside the Basic Multilingual Plane.
- Resources.UrlHandlers.Register: it stores the corrected rewrite of the filter (see Findings). The rewrite as written is `Resources.RewriteGlobAsWritten`.
- Resources.MakeResponse: it checks the QueryInterface result before the environment lookup (see Findings). The order as written is `Resources.MakeResponseAsWritten`.
- WindowCount.DecCount, WindowCount.WindowCounter.Dec and Bridge.Webview.OnWindowDestroyed: `dec_window_count` tests and decrements a `std::atomic_uint` in two steps, and the model makes them one. They hold only for calls in sequence. If two windows are destroyed at once at a count of 1, both can pass the test, and the count wraps to 2^32-1.
- Win32Edge.AfterRelease, Win32Edge.ReleasesToDelete and Win32Edge.ComRefCount.Release: `Release` tests `ref_count_ > 1` and then decrements, in two steps, and the model makes them one. They hold only for calls in sequence. Two concurrent releases at a count of 2 can both decrement, and two at a count of 1 can both delete the object.
- Resources.ContentReader.GetContent: a failed `Read` is modelled by the chunk it leaves in `bytes_read`: a short or empty chunk ends the body, as the loop does. Whether `get_Content` hands back the same stream, at the same position, on a later call is up to WebView2. The model assumes it does.
- Bridge.Webview.InvokeBinding and Replies.SaveStep: they follow a release build, where `assert(emplaced)` is compiled out and a duplicate pending id keeps the older handle. A debug build aborts at that point instead.
- Errors.NewException, Errors.WithCause and Errors.DefaultException: `what()` returns `Message().c_str()`, which a reader of the C string sees only up to the first NUL character. The model's `What` is the whole message.
- The `unordered_multimap` of response headers is iterated in an unspecified order. The model takes the headers as a sequence in that iteration order.

## Findings

| source | as written | input that shows it | evidently intended | confidence | as-written member | corrected member |
|---|---|---|---|---|---|---|
| src/backends/win32_edge.cpp:762-764 | a literal character assigns `res = wfilter[i]`, replacing the pattern built so far | the filter "app://index.html" becomes the pattern "l", which cannot match the URL | append the literal character (`res += wfilter[i]`), and append a dot before each unescaped wildcard without removing anything | medium, not executed | Resources.AsWrittenLosesTheFilter | Resources.LiteralFilterIsItsOwnRegex |
| src/backends/win32_edge.cpp:834-842 | `wv22->get_Environment` runs before the QueryInterface result is checked | a runtime without ICoreWebView2_2: QueryInterface returns E_NOINTERFACE and leaves `wv22` null | return the empty response before touching `wv22` | medium, not executed | Resources.MakeResponseAsWritten | Resources.MakeResponse |

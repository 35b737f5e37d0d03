/** `user_script` (src/user_script.cpp): an injected script's source text and
    the backend's handle for it. The handle is a move-only owning pointer, so a
    moved-from script holds no handle. */
module UserScripts {
  import opened Wrappers

  /** The Win32 backend's `user_script::impl`: the id WebView2 gave the
      script and its (widened) code. */
  datatype ScriptImpl = ScriptImpl(id: nat, code: string)

  class UserScript {
    var code: string
    var impl: Option<ScriptImpl>

    /** `user_script(code, impl)`: stores both. */
    constructor (code: string, impl: Option<ScriptImpl>)
      ensures this.code == code && this.impl == impl
    {
      this.code := code;
      this.impl := impl;
    }

    /** `user_script(user_script&& other)`: default-initialised members, then
        move assignment from `other`. */
    constructor Moved(other: UserScript)
      modifies other
      ensures code == old(other.code) && impl == old(other.impl)
      ensures other.impl == None && other.code == ""
    {
      code := "";
      impl := None;
      new;
      MoveAssign(other);
    }

    /** `operator=(user_script&& other)`: a no-op on self-assignment;
        otherwise the target takes the source's code and handle, and the source
        is left without a handle. */
    method MoveAssign(other: UserScript)
      modifies this, other
      ensures other == this ==> code == old(code) && impl == old(impl)
      ensures other != this ==> code == old(other.code) && impl == old(other.impl)
      ensures other != this ==> other.impl == None && other.code == ""
    {
      if this == other {
        return;
      }
      code := other.code;
      impl := other.impl;
      other.code := "";
      other.impl := None;
    }
  }
}

/**
 * The global hook gate (Kaptivate/hooks.cpp). A shared data segment holds
 * the flags; hookInit/hookUninit/hookPause/hookUnpause are guarded
 * transitions on them, and the two hook procedures decide per event whether
 * to ask the callback window and whether to swallow the event.
 *
 * Win32 results are inputs: SetWindowsHookEx is the hook handle it would
 * return (0 on failure), and SendMessageTimeout/GetLastError are a Reply.
 * The flags are `short` values that the code only ever sets to 0 or 1, so
 * they are booleans here.
 */
module Hooks {

  /** GetLastError's value when SendMessageTimeout timed out. */
  const ERROR_TIMEOUT: nat := 1460

  /** The shared data segment. */
  datatype Shared = Shared(
    initialized: bool,
    paused: bool,
    keyboardHook: nat,
    mouseHook: nat,
    callbackHwnd: nat,
    kbHookAlive: bool,
    mouseHookAlive: bool,
    keyboardMsg: nat,
    mouseMsg: nat,
    msgTimeout: nat)

  /** The segment as the DLL is loaded: every field zero. */
  const Loaded := Shared(false, false, 0, 0, 0, false, false, 0, 0, 0)

  /**
   * What asking the callback window produced. Either SendMessageTimeout
   * returned nonzero and the window's reply landed in `dwres`, or it
   * returned 0 and GetLastError reports why; `dwres` then keeps the 0 the
   * procedure initialised it with.
   */
  datatype Reply = Answered(dwres: nat) | Failed(lastError: nat)

  /**
   * A hook procedure's answer: hand the event on with CallNextHookEx (naming
   * the hook handle it passes), or return 1 and swallow it.
   */
  datatype HookResult = CallNext(hook: nat) | Consumed

  /** The reply value the procedure tests: 0 unless the window answered. */
  function ReplyValue(reply: Reply): nat
  {
    if reply.Answered? then reply.dwres else 0
  }

  predicate TimedOut(reply: Reply)
  {
    reply.Failed? && reply.lastError == ERROR_TIMEOUT
  }

  /** keyboardEvent asks the window only when none of its guards trips. */
  predicate KeyboardGate(s: Shared, nCode: int)
  {
    !(nCode < 0 || s.paused || s.callbackHwnd == 0 || !s.kbHookAlive || !s.initialized || s.keyboardMsg == 0)
  }

  /** mouseEvent's guards: the same, over the mouse flag and message. */
  predicate MouseGate(s: Shared, nCode: int)
  {
    !(nCode < 0 || s.paused || s.callbackHwnd == 0 || !s.mouseHookAlive || !s.initialized || s.mouseMsg == 0)
  }

  /** keyboardEvent: the new segment and the procedure's answer. */
  function KeyboardStep(s: Shared, nCode: int, reply: Reply): (Shared, HookResult)
  {
    if !KeyboardGate(s, nCode) then (s, CallNext(s.keyboardHook))
    else if TimedOut(reply) then (s.(kbHookAlive := false), CallNext(s.keyboardHook))
    else if ReplyValue(reply) > 0 then (s, Consumed)
    else (s, CallNext(s.keyboardHook))
  }

  /**
   * mouseEvent. Its last hand-on passes the keyboard hook's handle, as the
   * source does; the timeout hand-on passes the mouse hook's.
   */
  function MouseStep(s: Shared, nCode: int, reply: Reply): (Shared, HookResult)
  {
    if !MouseGate(s, nCode) then (s, CallNext(s.mouseHook))
    else if TimedOut(reply) then (s.(mouseHookAlive := false), CallNext(s.mouseHook))
    else if ReplyValue(reply) > 0 then (s, Consumed)
    else (s, CallNext(s.keyboardHook))
  }

  /**
   * hookInit, given the handles the two SetWindowsHookEx calls return.
   * The window, messages and timeout are stored before either hook is set.
   */
  function InitStep(s: Shared, window: nat, keyboardMessage: nat, mouseMessage: nat, timeout: nat,
                    keyboardHookResult: nat, mouseHookResult: nat): (Shared, int)
  {
    if s.initialized then (s, 0)
    else
      var stored := s.(callbackHwnd := window, keyboardMsg := keyboardMessage,
                       mouseMsg := mouseMessage, msgTimeout := timeout,
                       keyboardHook := keyboardHookResult);
      if keyboardHookResult == 0 then (stored, -1)
      else
        var hooked := stored.(mouseHook := mouseHookResult);
        if mouseHookResult == 0 then (hooked, -2)
        else (hooked.(initialized := true, kbHookAlive := true, mouseHookAlive := true), 0)
  }

  /** hookUninit; the UnhookWindowsHookEx calls themselves are not modelled. */
  function UninitStep(s: Shared): (Shared, int)
  {
    if !s.initialized then (s, 0)
    else (s.(kbHookAlive := false, mouseHookAlive := false, mouseHook := 0, keyboardHook := 0,
             callbackHwnd := 0, keyboardMsg := 0, mouseMsg := 0, msgTimeout := 0,
             initialized := false), 0)
  }

  function PauseStep(s: Shared): (Shared, int)
  {
    if s.initialized then (s.(paused := true), 0) else (s, -1)
  }

  function UnpauseStep(s: Shared): (Shared, int)
  {
    if s.initialized then (s.(paused := false), 0) else (s, -1)
  }

  /** While any guard trips, both procedures hand the event on and change nothing. */
  lemma ClosedGatePasses(s: Shared, nCode: int, reply: Reply)
    ensures !KeyboardGate(s, nCode) ==> KeyboardStep(s, nCode, reply) == (s, CallNext(s.keyboardHook))
    ensures !MouseGate(s, nCode) ==> MouseStep(s, nCode, reply) == (s, CallNext(s.mouseHook))
    ensures nCode < 0 || s.paused || !s.initialized || s.callbackHwnd == 0 ==>
              !KeyboardGate(s, nCode) && !MouseGate(s, nCode)
  {
  }

  /**
   * With the gate open: a timeout clears only the keyboard flag and hands the
   * event on; otherwise the segment is unchanged, and the event is swallowed
   * exactly when the window answered with a positive reply: a zero reply or
   * any other failed send hands it on.
   */
  lemma KeyboardDecision(s: Shared, nCode: int, reply: Reply)
    requires KeyboardGate(s, nCode)
    ensures TimedOut(reply) ==>
              KeyboardStep(s, nCode, reply) == (s.(kbHookAlive := false), CallNext(s.keyboardHook))
    ensures !TimedOut(reply) ==> KeyboardStep(s, nCode, reply).0 == s
    ensures KeyboardStep(s, nCode, reply).1 == Consumed <==> reply.Answered? && reply.dwres > 0
    ensures reply.Failed? ==> KeyboardStep(s, nCode, reply).1.CallNext?
    ensures KeyboardStep(s, nCode, reply).0.mouseHookAlive == s.mouseHookAlive
  {
  }

  /** The same rule for the mouse procedure, over the mouse flag. */
  lemma MouseDecision(s: Shared, nCode: int, reply: Reply)
    requires MouseGate(s, nCode)
    ensures TimedOut(reply) ==>
              MouseStep(s, nCode, reply) == (s.(mouseHookAlive := false), CallNext(s.mouseHook))
    ensures !TimedOut(reply) ==> MouseStep(s, nCode, reply).0 == s
    ensures MouseStep(s, nCode, reply).1 == Consumed <==> reply.Answered? && reply.dwres > 0
    ensures reply.Failed? ==> MouseStep(s, nCode, reply).1.CallNext?
    ensures MouseStep(s, nCode, reply).0.kbHookAlive == s.kbHookAlive
  {
  }

  /**
   * hookInit: a no-op returning 0 once initialized; otherwise 0 and every
   * flag armed exactly when both hooks were set, and -1 or -2, with the
   * segment still uninitialized, when the keyboard or mouse hook failed.
   */
  lemma InitOutcome(s: Shared, window: nat, kbMsg: nat, mMsg: nat, timeout: nat, kbHook: nat, mHook: nat)
    ensures s.initialized ==> InitStep(s, window, kbMsg, mMsg, timeout, kbHook, mHook) == (s, 0)
    ensures !s.initialized ==>
              var (t, code) := InitStep(s, window, kbMsg, mMsg, timeout, kbHook, mHook);
              && (code == 0 <==> kbHook != 0 && mHook != 0)
              && (code == -1 <==> kbHook == 0)
              && (code == -2 <==> kbHook != 0 && mHook == 0)
              && (code == 0 ==> t.initialized && t.kbHookAlive && t.mouseHookAlive)
              && (code != 0 ==> !t.initialized)
              && t.paused == s.paused
              && t.callbackHwnd == window && t.keyboardMsg == kbMsg && t.mouseMsg == mMsg
  {
  }

  /**
   * After a failed hookInit from an uninitialized segment, both procedures
   * hand every event on without asking the window.
   */
  lemma FailedInitPassesEverything(s: Shared, window: nat, kbMsg: nat, mMsg: nat, timeout: nat,
                                   kbHook: nat, mHook: nat, nCode: int, reply: Reply)
    requires !s.initialized
    requires InitStep(s, window, kbMsg, mMsg, timeout, kbHook, mHook).1 != 0
    ensures var t := InitStep(s, window, kbMsg, mMsg, timeout, kbHook, mHook).0;
            && KeyboardStep(t, nCode, reply) == (t, CallNext(t.keyboardHook))
            && MouseStep(t, nCode, reply) == (t, CallNext(t.mouseHook))
  {
  }

  /**
   * When the mouse hook fails, the keyboard hook that was already set stays
   * recorded, and hookUninit (a no-op while uninitialized) never clears it.
   */
  lemma MouseHookFailureLeavesKeyboardHook(s: Shared, window: nat, kbMsg: nat, mMsg: nat, timeout: nat, kbHook: nat)
    requires !s.initialized && kbHook != 0
    ensures var (t, code) := InitStep(s, window, kbMsg, mMsg, timeout, kbHook, 0);
            && code == -2 && t.keyboardHook == kbHook
            && UninitStep(t) == (t, 0)
  {
  }

  /**
   * hookUninit: a no-op while uninitialized; otherwise every field but
   * `paused` is zeroed, and `paused` is kept.
   */
  lemma UninitOutcome(s: Shared)
    ensures UninitStep(s).1 == 0
    ensures !s.initialized ==> UninitStep(s).0 == s
    ensures s.initialized ==> UninitStep(s).0 == Loaded.(paused := s.paused)
  {
  }

  /**
   * hookPause/hookUnpause: -1 and no change while uninitialized; otherwise 0
   * and `paused` set or cleared. Repeating either changes nothing further.
   */
  lemma PauseOutcome(s: Shared)
    ensures !s.initialized ==> PauseStep(s) == (s, -1) && UnpauseStep(s) == (s, -1)
    ensures s.initialized ==> PauseStep(s) == (s.(paused := true), 0)
    ensures s.initialized ==> UnpauseStep(s) == (s.(paused := false), 0)
    ensures PauseStep(PauseStep(s).0) == (PauseStep(s).0, PauseStep(s).1)
    ensures UnpauseStep(UnpauseStep(s).0) == (UnpauseStep(s).0, UnpauseStep(s).1)
  {
  }

  /** hookUninit followed by a successful hookInit re-arms both procedures. */
  lemma ReinitRearms(s: Shared, window: nat, kbMsg: nat, mMsg: nat, timeout: nat, kbHook: nat, mHook: nat)
    requires kbHook != 0 && mHook != 0
    ensures var t := InitStep(UninitStep(s).0, window, kbMsg, mMsg, timeout, kbHook, mHook).0;
            t.initialized && t.kbHookAlive && t.mouseHookAlive
  {
  }

  /** One call into the DLL, with the Win32 results it meets. */
  datatype HookCall =
    | KeyboardCall(nCode: int, reply: Reply)
    | MouseCall(nCode: int, reply: Reply)
    | InitCall(window: nat, keyboardMessage: nat, mouseMessage: nat, timeout: nat,
               keyboardHookResult: nat, mouseHookResult: nat)
    | UninitCall
    | PauseCall
    | UnpauseCall

  /** What a call returned: a hook procedure's answer or a status code. */
  datatype CallOutcome = Hook(result: HookResult) | Status(code: int)

  function Apply(s: Shared, call: HookCall): (Shared, CallOutcome)
  {
    match call
    case KeyboardCall(nCode, reply) =>
      var (t, r) := KeyboardStep(s, nCode, reply); (t, Hook(r))
    case MouseCall(nCode, reply) =>
      var (t, r) := MouseStep(s, nCode, reply); (t, Hook(r))
    case InitCall(w, km, mm, to, kh, mh) =>
      var (t, c) := InitStep(s, w, km, mm, to, kh, mh); (t, Status(c))
    case UninitCall =>
      var (t, c) := UninitStep(s); (t, Status(c))
    case PauseCall =>
      var (t, c) := PauseStep(s); (t, Status(c))
    case UnpauseCall =>
      var (t, c) := UnpauseStep(s); (t, Status(c))
  }

  /** Runs calls in order: the final segment and one outcome per call. */
  function Run(s: Shared, calls: seq<HookCall>): (Shared, seq<CallOutcome>)
    decreases |calls|
  {
    if calls == [] then (s, [])
    else
      var (t, out) := Apply(s, calls[0]);
      var (u, outs) := Run(t, calls[1..]);
      (u, [out] + outs)
  }

  /**
   * Once a timeout has cleared the keyboard flag of an initialized segment,
   * every later keyboard event is handed on unasked, whatever else happens,
   * until hookUninit: a hookInit meanwhile is a no-op and cannot re-arm it.
   */
  lemma {:induction false} DeadKeyboardHookStaysDead(s: Shared, calls: seq<HookCall>)
    requires s.initialized && !s.kbHookAlive
    requires forall i :: 0 <= i < |calls| ==> !calls[i].UninitCall?
    ensures |Run(s, calls).1| == |calls|
    ensures Run(s, calls).0.initialized && !Run(s, calls).0.kbHookAlive
    ensures Run(s, calls).0.keyboardHook == s.keyboardHook
    ensures forall i :: 0 <= i < |calls| && calls[i].KeyboardCall? ==>
              Run(s, calls).1[i] == Hook(CallNext(s.keyboardHook))
    decreases |calls|
  {
    if calls != [] {
      var (t, out) := Apply(s, calls[0]);
      assert t.initialized && !t.kbHookAlive && t.keyboardHook == s.keyboardHook;
      assert calls[0].KeyboardCall? ==> out == Hook(CallNext(s.keyboardHook));
      DeadKeyboardHookStaysDead(t, calls[1..]);
      var (u, outs) := Run(t, calls[1..]);
      assert Run(s, calls) == (u, [out] + outs);
      forall i | 0 < i < |calls| && calls[i].KeyboardCall?
        ensures Run(s, calls).1[i] == Hook(CallNext(s.keyboardHook))
      {
        assert calls[1..][i - 1] == calls[i];
      }
    }
  }

  /**
   * While paused, every keyboard and mouse event is handed on unasked until
   * hookUnpause: neither hookUninit nor hookInit clears `paused`.
   */
  lemma {:induction false} PausedPassesEverything(s: Shared, calls: seq<HookCall>)
    requires s.paused
    requires forall i :: 0 <= i < |calls| ==> !calls[i].UnpauseCall?
    ensures |Run(s, calls).1| == |calls|
    ensures Run(s, calls).0.paused
    ensures forall i :: 0 <= i < |calls| && (calls[i].KeyboardCall? || calls[i].MouseCall?) ==>
              Run(s, calls).1[i].Hook? && Run(s, calls).1[i].result.CallNext?
    decreases |calls|
  {
    if calls != [] {
      var (t, out) := Apply(s, calls[0]);
      assert t.paused;
      PausedCallPasses(s, calls[0]);
      PausedPassesEverything(t, calls[1..]);
      var (u, outs) := Run(t, calls[1..]);
      assert Run(s, calls) == (u, [out] + outs);
      forall i | 0 < i < |calls| && (calls[i].KeyboardCall? || calls[i].MouseCall?)
        ensures Run(s, calls).1[i].Hook? && Run(s, calls).1[i].result.CallNext?
      {
        assert calls[1..][i - 1] == calls[i];
      }
    }
  }

  /** A hook procedure called on a paused segment hands the event on. */
  lemma PausedCallPasses(s: Shared, call: HookCall)
    requires s.paused
    ensures call.KeyboardCall? || call.MouseCall? ==>
              Apply(s, call).1.Hook? && Apply(s, call).1.result.CallNext?
  {
  }

  /** The shared data segment as static fields, updated in place. */
  class HookDll {
    var initialized: bool
    var paused: bool
    var keyboardHook: nat
    var mouseHook: nat
    var callbackHwnd: nat
    var kbHookAlive: bool
    var mouseHookAlive: bool
    var keyboardMsg: nat
    var mouseMsg: nat
    var msgTimeout: nat

    function State(): Shared
      reads this
    {
      Shared(initialized, paused, keyboardHook, mouseHook, callbackHwnd,
             kbHookAlive, mouseHookAlive, keyboardMsg, mouseMsg, msgTimeout)
    }

    constructor ()
      ensures State() == Loaded
    {
      initialized, paused := false, false;
      keyboardHook, mouseHook, callbackHwnd := 0, 0, 0;
      kbHookAlive, mouseHookAlive := false, false;
      keyboardMsg, mouseMsg, msgTimeout := 0, 0, 0;
    }

    /** keyboardEvent: writes only the keyboard flag. */
    method KeyboardEvent(nCode: int, reply: Reply) returns (result: HookResult)
      modifies this`kbHookAlive
      ensures (State(), result) == KeyboardStep(old(State()), nCode, reply)
    {
      if nCode < 0 || paused || callbackHwnd == 0 || !kbHookAlive || !initialized || keyboardMsg == 0 {
        return CallNext(keyboardHook);
      }
      var dwres := 0;
      if reply.Failed? {
        if reply.lastError == ERROR_TIMEOUT {
          kbHookAlive := false;
          return CallNext(keyboardHook);
        }
      } else {
        dwres := reply.dwres;
      }
      if dwres > 0 {
        return Consumed;
      }
      return CallNext(keyboardHook);
    }

    /** mouseEvent: writes only the mouse flag. */
    method MouseEvent(nCode: int, reply: Reply) returns (result: HookResult)
      modifies this`mouseHookAlive
      ensures (State(), result) == MouseStep(old(State()), nCode, reply)
    {
      if nCode < 0 || paused || callbackHwnd == 0 || !mouseHookAlive || !initialized || mouseMsg == 0 {
        return CallNext(mouseHook);
      }
      var dwres := 0;
      if reply.Failed? {
        if reply.lastError == ERROR_TIMEOUT {
          mouseHookAlive := false;
          return CallNext(mouseHook);
        }
      } else {
        dwres := reply.dwres;
      }
      if dwres > 0 {
        return Consumed;
      }
      return CallNext(keyboardHook);
    }

    method HookInit(callbackWindow: nat, keyboardMessage: nat, mouseMessage: nat, messageTimeout: nat,
                    keyboardHookResult: nat, mouseHookResult: nat) returns (code: int)
      modifies this
      ensures (State(), code) == InitStep(old(State()), callbackWindow, keyboardMessage, mouseMessage,
                                          messageTimeout, keyboardHookResult, mouseHookResult)
    {
      if initialized {
        return 0;
      }
      callbackHwnd := callbackWindow;
      keyboardMsg := keyboardMessage;
      mouseMsg := mouseMessage;
      msgTimeout := messageTimeout;
      keyboardHook := keyboardHookResult;
      if keyboardHook == 0 {
        return -1;
      }
      mouseHook := mouseHookResult;
      if mouseHook == 0 {
        return -2;
      }
      initialized := true;
      kbHookAlive := true;
      mouseHookAlive := true;
      return 0;
    }

    method HookUninit() returns (code: int)
      modifies this
      ensures (State(), code) == UninitStep(old(State()))
    {
      if !initialized {
        return 0;
      }
      kbHookAlive := false;
      mouseHookAlive := false;
      if mouseHook != 0 {
        mouseHook := 0;
      }
      if keyboardHook != 0 {
        keyboardHook := 0;
      }
      callbackHwnd := 0;
      keyboardMsg := 0;
      mouseMsg := 0;
      msgTimeout := 0;
      initialized := false;
      return 0;
    }

    method HookPause() returns (code: int)
      modifies this`paused
      ensures (State(), code) == PauseStep(old(State()))
    {
      if initialized {
        paused := true;
        return 0;
      }
      return -1;
    }

    method HookUnpause() returns (code: int)
      modifies this`paused
      ensures (State(), code) == UnpauseStep(old(State()))
    {
      if initialized {
        paused := false;
        return 0;
      }
      return -1;
    }
  }
}

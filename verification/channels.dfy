/** The four outcome channels of a flow and the agents that combine them
    (src/natsune/backend/control_flow.py, control_branch_flow.py and the
    register operators |, & and choice of registers.py). */
module Channels {
  import opened Ir

  // What has arrived at a port: nothing yet, an erasure, or something live.
  datatype Chan<+T> = Pending | Erased | Live(v: T)

  /* A bundle of variable cells. `rest` is what every unlisted cell holds. A
     live bundle may hold erased or pending cells. */
  datatype Env = Env(cells: map<Name, Chan<Value>>, rest: Chan<Value>) {
    function Get(x: Name): Chan<Value> {
      if x in cells then cells[x] else rest
    }

    function Set(x: Name, c: Chan<Value>): Env {
      Env(cells[x := c], rest)
    }
  }

  // Registers after variables_readout: the cells have moved out.
  const DANGLING: Env := Env(map[], Pending)

  // Element-wise forwarding of a bundle: the tuple is rebuilt at once, so the
  // result is live whatever the source is.
  function Split(c: Chan<Env>): Env {
    match c
    case Pending => Env(map[], Pending)
    case Erased => Env(map[], Erased)
    case Live(env) => env
  }

  datatype Control = Control(ret: Chan<Value>, cont: Chan<Env>, brk: Chan<Env>, fin: Chan<Env>)

  const WAITING: Control := Control(Pending, Pending, Pending, Pending)
  const ERASED: Control := Control(Erased, Erased, Erased, Erased)

  /* SerialOr: the left when it is live, the right once the left is erased. */
  function SerialOr<T>(left: Chan<T>, right: Chan<T>): Chan<T> {
    if left.Erased? then right else left
  }

  /* `choice`: (left & in1) | (right & in2), each wired back to its own side.
     The right half can only be erased or forwarded once it has arrived. */
  function Choice<S, T>(left: Chan<S>, right: Chan<T>): (Chan<S>, Chan<T>) {
    (left,
     if right.Live? then
       match left
       case Live(_) => Erased
       case Erased => right
       case Pending => Pending
     else right)
  }

  /* Dead channels are annihilated on both sides, whatever was arriving. */
  function Shortcut(c: Control, exits: Exits): Control {
    Control(
      if Returns in exits then c.ret else Erased,
      if Continues in exits then c.cont else Erased,
      if Breaks in exits then c.brk else Erased,
      if Fallthrough in exits then c.fin else Erased)
  }

  // The masking half of apply_continuation: return, continue, break, finish.
  function Masked(k: Control): Control {
    var (ret, cont) := Choice(k.ret, k.cont);
    var (cont', brk) := Choice(cont, k.brk);
    var (brk', fin) := Choice(brk, k.fin);
    Control(ret, cont', brk', fin)
  }

  function Applied(cur: Control, k: Control): Control {
    var m := Masked(k);
    Control(SerialOr(cur.ret, m.ret), SerialOr(cur.cont, m.cont), SerialOr(cur.brk, m.brk), m.fin)
  }

  /* Reading an outcome: the first live channel, once those before it are erased. */
  datatype Reading =
    | Undetermined
    | Nothing
    | ReadsReturn(value: Value)
    | ReadsContinue(env: Env)
    | ReadsBreak(env: Env)
    | ReadsFinish(env: Env)

  function FirstLive(c: Control): Reading {
    match c.ret
    case Live(v) => ReadsReturn(v)
    case Pending => Undetermined
    case Erased =>
      match c.cont
      case Live(env) => ReadsContinue(env)
      case Pending => Undetermined
      case Erased =>
        match c.brk
        case Live(env) => ReadsBreak(env)
        case Pending => Undetermined
        case Erased =>
          match c.fin
          case Live(env) => ReadsFinish(env)
          case Pending => Undetermined
          case Erased => Nothing
  }

  function LiveCount(c: Control): nat {
    (if c.ret.Live? then 1 else 0) + (if c.cont.Live? then 1 else 0)
    + (if c.brk.Live? then 1 else 0) + if c.fin.Live? then 1 else 0
  }

  // A layer's four channels have all been decided.
  predicate Settled(c: Control) {
    !c.ret.Pending? && !c.cont.Pending? && !c.brk.Pending? && !c.fin.Pending?
  }

  /* Masking never changes which outcome is read first, nor its payload. */
  lemma MaskKeepsReading(cur: Control, k: Control)
    requires cur.ret.Erased? && cur.cont.Erased? && cur.brk.Erased?
    ensures FirstLive(k) != Undetermined ==> FirstLive(Applied(cur, k)) == FirstLive(k)
  {
  }

  /* Once an exit channel is live, no later layer changes its payload, and once
     finish is erased later layers change nothing at all. */
  lemma ExitsStick(cur: Control, k: Control)
    ensures cur.ret.Live? ==> Applied(cur, k).ret == cur.ret
    ensures cur.cont.Live? ==> Applied(cur, k).cont == cur.cont
    ensures cur.brk.Live? ==> Applied(cur, k).brk == cur.brk
    ensures k == ERASED ==> Applied(cur, k) == cur.(fin := Erased)
  {
  }

  /** ControlBranchFlow: the channels of a statement list as its layers are
      applied one after the other. */
  class ControlBranchFlow {
    var curControl: Control

    constructor (env: Env)
      ensures curControl == Control(Erased, Erased, Erased, Live(env))
    {
      curControl := Control(Erased, Erased, Erased, Live(env));
    }

    method ApplyContinuation(continuation: Control)
      modifies this
      ensures curControl == Applied(old(curControl), continuation)
    {
      var (flowReturn, cont) := Choice(continuation.ret, continuation.cont);
      var (flowContinue, brk) := Choice(cont, continuation.brk);
      var (flowBreak, flowFinish) := Choice(brk, continuation.fin);
      curControl := curControl.(fin := flowFinish);
      curControl := curControl.(cont := SerialOr(curControl.cont, flowContinue));
      curControl := curControl.(brk := SerialOr(curControl.brk, flowBreak));
      curControl := curControl.(ret := SerialOr(curControl.ret, flowReturn));
    }

    method Close(exits: Exits) returns (out: Control)
      modifies this
      ensures out == Shortcut(old(curControl), exits) == curControl
    {
      curControl := Shortcut(curControl, exits);
      out := curControl;
    }
  }
}

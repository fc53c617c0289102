/** The nets emitted for statement lists, and how they run: layers chained by
    ControlBranchFlow, IfThenElseStatement and Loop agents. */
module Flow {
  import opened Options
  import opened Ir
  import opened Python
  import opened Channels

  /* Instructions emitted into one VariablesFlow layer. A Branch or an Iterate
     is always the last instruction of its layer. */
  datatype Op =
    | Write(targets: seq<Name>, value: Expr)
    | Update(target: Name, op: (Value, Value) -> Option<Value>, operand: Expr)
    | Discard(value: Expr)
    | SendReturn(result: Option<Expr>)
    | SendBreak
    | SendContinue
    | SendFinish
    | Branch(test: Expr, thenFlow: BodyFlow, elseFlow: BodyFlow, exits: Exits)
    | Iterate(agent: LoopAgent)

  datatype Layer = Layer(ops: seq<Op>)
  datatype BodyFlow = BodyFlow(layers: seq<Layer>, exits: Exits)
  datatype Step = ForStep(target: Name, iter: Expr) | WhileStep(test: Expr)
  datatype LoopAgent = LoopAgent(step: Step, body: BodyFlow, orelse: BodyFlow, exits: Exits)

  /* ---- Expressions over cells ---- */

  function EvalChan(e: Expr, env: Env): Chan<Value> {
    match e
    case Const(v) => Live(v)
    case Var(x) => env.Get(x)
    case Dynamic(fn, captures) =>
      match EvalChans(captures, env)
      case Pending => Pending
      case Erased => Erased
      case Live(vs) => if fn(vs).Some? then Live(fn(vs).value) else Erased
  }

  // Captures are joined left to right by merge agents.
  function EvalChans(es: seq<Expr>, env: Env): (r: Chan<seq<Value>>)
    ensures r.Live? ==> |r.v| == |es|
  {
    if es == [] then Live([])
    else match EvalChan(es[0], env)
      case Pending => Pending
      case Erased => Erased
      case Live(v) =>
        match EvalChans(es[1..], env)
        case Pending => Pending
        case Erased => Erased
        case Live(vs) => Live([v] + vs)
  }

  function UpdateChan(target: Name, op: (Value, Value) -> Option<Value>, operand: Expr, env: Env): Chan<Value> {
    match EvalChans([Var(target), operand], env)
    case Pending => Pending
    case Erased => Erased
    case Live(vs) => if op(vs[0], vs[1]).Some? then Live(op(vs[0], vs[1]).value) else Erased
  }

  // Chained targets copy from one register to the next.
  function WriteAll(targets: seq<Name>, c: Chan<Value>, env: Env): Env {
    if targets == [] then env
    else
      var env' := env.Set(targets[0], c);
      WriteAll(targets[1..], env'.Get(targets[0]), env')
  }

  /* ---- One layer ---- */

  /* A layer whose input is an erasure erases all its outputs, and one whose
     input has not arrived has none. The first write to an output wins: a later
     one lands on an interface that is already annihilated. */
  datatype LayerState =
    | Waiting
    | Inert
    | Active(env: Env, ret: Option<Chan<Value>>, cont: Option<Chan<Env>>,
             brk: Option<Chan<Env>>, fin: Option<Chan<Env>>)

  function Open(input: Chan<Env>): LayerState {
    match input
    case Pending => Waiting
    case Erased => Inert
    case Live(env) => Active(env, None, None, None, None)
  }

  function OrErased<T>(sent: Option<Chan<T>>): Chan<T> {
    if sent.Some? then sent.value else Erased
  }

  function First<T>(sent: Option<Chan<T>>, c: Chan<T>): Option<Chan<T>> {
    if sent.Some? then sent else Some(c)
  }

  function CloseLayer(st: LayerState): Control {
    match st
    case Waiting => WAITING
    case Inert => ERASED
    case Active(_, ret, cont, brk, fin) => Control(OrErased(ret), OrErased(cont), OrErased(brk), OrErased(fin))
  }

  function Forward(st: LayerState, k: Control): LayerState
    requires st.Active?
  {
    Active(DANGLING, First(st.ret, k.ret), First(st.cont, k.cont), First(st.brk, k.brk), First(st.fin, k.fin))
  }

  function ExecOp(w: World, op: Op, st: LayerState, n: nat): LayerState
    decreases n, op, 2
  {
    if !st.Active? then st
    else match op
      case Write(targets, value) =>
        if targets == [] then st else st.(env := WriteAll(targets, EvalChan(value, st.env), st.env))
      case Update(target, op, operand) =>
        st.(env := st.env.Set(target, UpdateChan(target, op, operand, st.env)))
      case Discard(_) => st
      case SendReturn(result) =>
        st.(ret := First(st.ret, if result.None? then Live(w.none) else EvalChan(result.value, st.env)))
      case SendBreak => st.(brk := First(st.brk, Live(st.env)), env := DANGLING)
      case SendContinue => st.(cont := First(st.cont, Live(st.env)), env := DANGLING)
      case SendFinish => st.(fin := First(st.fin, Live(st.env)), env := DANGLING)
      case Branch(test, thenFlow, elseFlow, exits) =>
        (var k :=
           match EvalChan(test, st.env)
           case Pending => WAITING
           case Erased => ERASED
           case Live(v) =>
             if w.truthy(v) then RunFlow(w, thenFlow, Live(st.env), n) else RunFlow(w, elseFlow, Live(st.env), n);
         Forward(st, Shortcut(k, exits)))
      case Iterate(agent) =>
        (var source :=
           match agent.step
           case WhileStep(_) => Erased
           case ForStep(_, iter) =>
             match EvalChan(iter, st.env)
             case Pending => Pending
             case Erased => Erased
             case Live(v) => if w.iter(v).Some? then Live(w.iter(v).value) else Erased;
         Forward(st, Shortcut(RunAgent(w, agent, Live(st.env), source, n), agent.exits)))
  }

  function ExecOps(w: World, ops: seq<Op>, st: LayerState, n: nat): LayerState
    decreases n, ops, 3
  {
    if ops == [] then st else ExecOps(w, ops[1..], ExecOp(w, ops[0], st, n), n)
  }

  /* ---- A statement list ---- */

  // Each layer takes the finish channel left by the layers before it.
  function RunLayers(w: World, layers: seq<Layer>, cur: Control, n: nat): Control
    decreases n, layers, 4
  {
    if layers == [] then cur
    else
      var st := ExecOps(w, layers[0].ops, Open(cur.fin), n);
      RunLayers(w, layers[1..], Applied(cur, CloseLayer(st)), n)
  }

  function RunFlow(w: World, flow: BodyFlow, input: Chan<Env>, n: nat): Control
    decreases n, flow, 5
  {
    match input
    case Pending => WAITING
    case Erased => ERASED
    case Live(env) => Shortcut(RunLayers(w, flow.layers, Control(Erased, Erased, Erased, Live(env)), n), flow.exits)
  }

  /* ---- The Loop agent ---- */

  // The iteration flow: (should continue, variables, iterator afterwards).
  datatype Header = Header(test: Chan<bool>, env: Env, it: Chan<Value>)

  function TurnHeader(w: World, step: Step, env: Env, it: Chan<Value>): Header {
    match step
    case WhileStep(test) =>
      Header(match EvalChan(test, env) case Pending => Pending case Erased => Erased case Live(v) => Live(w.truthy(v)),
             env, it)
    case ForStep(target, _) =>
      match it
      case Pending => Header(Pending, env, it)
      case Erased => Header(Erased, env, it)
      case Live(i) =>
        match w.next(i)
        case None => Header(Live(false), env, it)
        case Some(step) => Header(Live(true), env.Set(target, Live(step.0)), Live(step.1))
  }

  // Loop.true_case up to the recursive call: what leaves now, what recurs.
  datatype Routed = Routed(ret: Chan<Value>, brk: Chan<Env>, again: Chan<Env>)

  function Route(c: Control): Routed {
    var bodyFinish := SerialOr(c.cont, c.fin);
    var (ret, brk) := Choice(c.ret, c.brk);
    var (brk', again) := Choice(brk, bodyFinish);
    Routed(ret, brk', again)
  }

  // Loop.true_case after the recursive call. The finish bundle is split.
  function Rejoin(r: Routed, rec: Control): Control {
    Control(SerialOr(r.ret, rec.ret), rec.cont, rec.brk, Live(Split(SerialOr(r.brk, rec.fin))))
  }

  function RunAgent(w: World, agent: LoopAgent, vars: Chan<Env>, it: Chan<Value>, n: nat): Control
    decreases n, agent, 1
  {
    match vars
    case Pending => WAITING
    case Erased => ERASED
    case Live(env) =>
      if n == 0 then WAITING
      else
        var h := TurnHeader(w, agent.step, env, it);
        match h.test
        case Pending => Shortcut(WAITING, agent.exits)
        case Erased => ERASED
        case Live(false) => Shortcut(RunFlow(w, agent.orelse, Live(h.env), n - 1), agent.exits)
        case Live(true) =>
          var r := Route(RunFlow(w, agent.body, Live(h.env), n - 1));
          var rec := Shortcut(RunAgent(w, agent, r.again, h.it, n - 1), agent.exits);
          Shortcut(Rejoin(r, rec), agent.exits)
  }

  /** Runs a statement list the way its net is built: one ControlBranchFlow
      object that every layer is invoked on. */
  method DriveFlow(w: World, flow: BodyFlow, env: Env, n: nat) returns (out: Control)
    ensures out == RunFlow(w, flow, Live(env), n)
  {
    var branch := new ControlBranchFlow(env);
    var i := 0;
    while i < |flow.layers|
      invariant 0 <= i <= |flow.layers|
      invariant RunLayers(w, flow.layers, Control(Erased, Erased, Erased, Live(env)), n)
             == RunLayers(w, flow.layers[i..], branch.curControl, n)
    {
      assert flow.layers[i..][1..] == flow.layers[i + 1..];
      var st := Open(branch.curControl.fin);
      var ops := flow.layers[i].ops;
      var j := 0;
      while j < |ops|
        invariant 0 <= j <= |ops|
        invariant ExecOps(w, ops, Open(branch.curControl.fin), n) == ExecOps(w, ops[j..], st, n)
      {
        assert ops[j..][1..] == ops[j + 1..];
        st := ExecOp(w, ops[j], st, n);
        j := j + 1;
      }
      branch.ApplyContinuation(CloseLayer(st));
      i := i + 1;
    }
    out := branch.Close(flow.exits);
  }
}

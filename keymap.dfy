/**
 * The rule store and the action interpreter of the remapper: a rule file
 * maps key-sequence signatures to lists of actions, and `Process` looks
 * up the signature of the pending queue plus the new key and runs that
 * rule's actions (`if`, `else`, `send`, `forward`, `wait`, `clear`,
 * `none`, `echo`, `exec`, `set`, `call`).
 *
 * The host language's expression evaluator, statement executor and
 * module-function caller are given as an `Evaluator` of total functions
 * whose `None` / `raised` results stand for a raised exception.
 */
module Keymap {
  import opened Common
  import opened Text
  import opened Events
  import opened KeyTrans

  // ---------------------------------------------------------------------
  // Rule files
  // ---------------------------------------------------------------------

  /** What one line of a rule file contributes. */
  datatype Line =
    | Skip                                          // blank after stripping, or a comment
    | Rule(signature: string, actions: seq<string>) // `signature = action; action; ...`
    | Malformed                                     // no `=`: loading fails here

  function StripAll(parts: seq<string>): (r: seq<string>)
    ensures |r| == |parts|
    ensures forall i :: 0 <= i < |parts| ==> r[i] == Strip(parts[i])
  {
    seq(|parts|, i requires 0 <= i < |parts| => Strip(parts[i]))
  }

  predicate IsComment(s: string) {
    StartsWith(s, "#") || s == []
  }

  /**
   * A stripped line that is empty or starts with `#` is skipped; otherwise
   * it is cut at its first `=`, the left side stripped, the right side split
   * at every `;` and each action stripped.
   */
  function ClassifyLine(line: string): (r: Line)
    ensures r == Skip <==> IsComment(Strip(line))
    ensures r == Malformed <==> !IsComment(Strip(line)) && '=' !in Strip(line)
    ensures r.Rule? ==> '=' !in r.signature && |r.actions| >= 1
  {
    var s := Strip(line);
    if IsComment(s) then Skip
    else match SplitOnce(s, '=')
      case None => Malformed
      case Some((left, right)) =>
        assert '=' !in Strip(left);
        Rule(Strip(left), StripAll(Split(right, ';')))
  }

  /** A trimmed rule line cuts at its first `=`, and `;` separates its actions. */
  lemma ClassifyRuleLine(left: string, right: string)
    requires '=' !in left && left != [] && left[0] != '#'
    requires Strip(left + "=" + right) == left + "=" + right
    ensures ClassifyLine(left + "=" + right) == Rule(Strip(left), StripAll(Split(right, ';')))
  {
    var s := left + "=" + right;
    assert s[0] == left[0];
    SplitOnceAt(left, '=', right);
  }

  type RuleTable = map<string, seq<string>>

  function ClassifyAll(lines: seq<string>): (r: seq<Line>)
    ensures |r| == |lines|
    ensures forall i :: 0 <= i < |lines| ==> r[i] == ClassifyLine(lines[i])
  {
    seq(|lines|, i requires 0 <= i < |lines| => ClassifyLine(lines[i]))
  }

  /**
   * The rule table classified lines build, a later rule for the same
   * signature replacing the earlier one; or the index of the first
   * malformed line, where loading raises.
   */
  function BuildTable(ls: seq<Line>): (r: Result<RuleTable, nat>)
    ensures r.Failure? ==> r.error < |ls|
    decreases |ls|
  {
    if ls == [] then Success(map[])
    else
      var r0 := BuildTable(ls[..|ls| - 1]);
      if r0.Failure? then r0
      else match ls[|ls| - 1]
        case Malformed => Failure(|ls| - 1)
        case Skip => r0
        case Rule(k, a) => Success(r0.value[k := a])
  }

  /** The rule table a file's lines build, or the index of the line where loading fails. */
  function ParseRules(lines: seq<string>): Result<RuleTable, nat> {
    BuildTable(ClassifyAll(lines))
  }

  /** Loading fails exactly when some line is malformed, and then at the first one. */
  lemma {:induction false} FirstMalformed(ls: seq<Line>)
    ensures BuildTable(ls).Failure? ==>
      && ls[BuildTable(ls).error] == Malformed
      && forall j :: 0 <= j < BuildTable(ls).error ==> ls[j] != Malformed
    ensures BuildTable(ls).Success? <==> forall j :: 0 <= j < |ls| ==> ls[j] != Malformed
    decreases |ls|
  {
    if ls != [] {
      var init := ls[..|ls| - 1];
      FirstMalformed(init);
      assert forall j :: 0 <= j < |init| ==> init[j] == ls[j];
    }
  }

  /** Once a prefix of the lines fails to load, all of them fail at the same line. */
  lemma {:induction false} FailureSticks(ls: seq<Line>, n: nat)
    requires n <= |ls|
    requires BuildTable(ls[..n]).Failure?
    ensures BuildTable(ls) == BuildTable(ls[..n])
    decreases |ls| - n
  {
    if n < |ls| {
      assert ls[..n + 1][..n] == ls[..n];
      FailureSticks(ls, n + 1);
    } else {
      assert ls[..n] == ls;
    }
  }

  /** Line `j` is a rule for signature `k`. */
  predicate DefinesAt(ls: seq<Line>, j: int, k: string)
    requires 0 <= j < |ls|
  {
    ls[j].Rule? && ls[j].signature == k
  }

  /** The loaded table has a rule for exactly the signatures some line defines. */
  lemma {:induction false} RulesDomain(ls: seq<Line>, k: string)
    requires BuildTable(ls).Success?
    ensures k in BuildTable(ls).value <==> exists j :: 0 <= j < |ls| && DefinesAt(ls, j, k)
    decreases |ls|
  {
    if ls != [] {
      var n := |ls| - 1;
      var init := ls[..n];
      assert BuildTable(init).Success?;
      RulesDomain(init, k);
      assert forall j :: 0 <= j < n ==> (DefinesAt(init, j, k) <==> DefinesAt(ls, j, k));
      if DefinesAt(ls, n, k) {
        assert k in BuildTable(ls).value;
      } else {
        assert k in BuildTable(ls).value <==> k in BuildTable(init).value;
        if exists j :: 0 <= j < |ls| && DefinesAt(ls, j, k) {
          var j :| 0 <= j < |ls| && DefinesAt(ls, j, k);
          assert DefinesAt(init, j, k);
        }
      }
    }
  }

  /** Of several rules for one signature, the last one is kept. */
  lemma {:induction false} LastDefinitionWins(ls: seq<Line>, j: nat, k: string)
    requires BuildTable(ls).Success?
    requires j < |ls| && DefinesAt(ls, j, k)
    requires forall i :: j < i < |ls| ==> !DefinesAt(ls, i, k)
    ensures k in BuildTable(ls).value
    ensures BuildTable(ls).value[k] == ls[j].actions
    decreases |ls|
  {
    var n := |ls| - 1;
    var init := ls[..n];
    assert BuildTable(init).Success?;
    if j < n {
      assert forall i :: 0 <= i < n ==> (DefinesAt(init, i, k) <==> DefinesAt(ls, i, k));
      LastDefinitionWins(init, j, k);
      assert !DefinesAt(ls, n, k);
    }
  }

  lemma BuildTableSnoc(ls: seq<Line>, i: nat)
    requires i < |ls|
    ensures BuildTable(ls[..i + 1]) ==
      var r0 := BuildTable(ls[..i]);
      if r0.Failure? then r0
      else match ls[i]
        case Malformed => Failure(i)
        case Skip => r0
        case Rule(k, a) => Success(r0.value[k := a])
  {
    assert ls[..i + 1][..i] == ls[..i];
  }

  /** Loads a rule file line by line; stops at the first line without `=`. */
  method LoadRules(lines: seq<string>) returns (r: Result<RuleTable, nat>)
    ensures r == ParseRules(lines)
  {
    ghost var ls := ClassifyAll(lines);
    var rules: RuleTable := map[];
    for i := 0 to |lines|
      invariant BuildTable(ls[..i]) == Success(rules)
    {
      BuildTableSnoc(ls, i);
      var line := Strip(lines[i]);
      if StartsWith(line, "#") || line == [] {
        assert ls[i] == Skip;
        continue;
      }
      var split := SplitOnce(line, '=');
      if split.None? {
        assert ls[i] == Malformed;
        FailureSticks(ls, i + 1);
        return Failure(i);
      }
      var (left, right) := split.value;
      assert ls[i] == Rule(Strip(left), StripAll(Split(right, ';')));
      rules := rules[Strip(left) := StripAll(Split(right, ';'))];
    }
    assert ls[..|lines|] == ls;
    return Success(rules);
  }

  // ---------------------------------------------------------------------
  // Values, the evaluator and the interpreter's state
  // ---------------------------------------------------------------------

  /** A value bound in the variable map. */
  datatype Value =
    | NoneValue
    | QueueValue(events: seq<KeyEvent>)
    | EventValue(key: KeyEvent)
    | Opaque(id: nat, truthy: bool)   // anything else an expression yields

  /** The truth of a value as an `if` tests it. */
  predicate Truthy(v: Value) {
    match v
    case NoneValue => false
    case QueueValue(q) => q != []
    case EventValue(_) => true
    case Opaque(_, t) => t
  }

  type Env = map<string, Value>

  /** What running a statement left behind: the variables, and whether it raised. */
  datatype Executed = Executed(env: Env, raised: bool)

  /** What calling a module function left behind: the variables, and its events or `None` if it raised. */
  datatype Called = Called(env: Env, result: Option<seq<InputEvent>>)

  /**
   * The host language's evaluation: an expression (`None`: it raised), a
   * statement, and a module function looked up by module and function
   * name and called with the key sequence, the variables and an argument.
   */
  datatype Evaluator = Evaluator(
    eval: (string, Env) -> Option<Value>,
    exec: (string, Env) -> Executed,
    call: (string, string, seq<KeyEvent>, Env, Option<string>) -> Called)

  /** Everything `Process` consults besides its own state. */
  datatype Context = Context(scancodes: map<string, nat>, revmap: map<nat, string>, ev: Evaluator)

  /** How a call of `Process` ends: with output records, or by raising. */
  datatype Exit = Returned(events: seq<InputEvent>) | Raised

  /** The state a parser keeps between calls. */
  datatype Session = Session(queue: seq<KeyEvent>, vars: Env)

  datatype Outcome = Outcome(exit: Exit, session: Session)

  /** The state inside one rule's action loop: the session, the gate and the output so far. */
  datatype Run = Run(queue: seq<KeyEvent>, vars: Env, gate: bool, res: seq<InputEvent>)

  /** One action either lets the loop go on or ends the call. */
  datatype Step = Next(run: Run) | Stop(exit: Exit, queue: seq<KeyEvent>, vars: Env)

  // ---------------------------------------------------------------------
  // Lookup
  // ---------------------------------------------------------------------

  function Signatures(revmap: map<nat, string>, q: seq<KeyEvent>): (r: seq<string>)
    ensures |r| == |q|
    ensures forall i :: 0 <= i < |q| ==> r[i] == Signature(revmap, q[i])
  {
    seq(|q|, i requires 0 <= i < |q| => Signature(revmap, q[i]))
  }

  /** The signature of the queued events and then the new one, space-separated. */
  function LookupKey(revmap: map<nat, string>, queue: seq<KeyEvent>, k: KeyEvent): string {
    if queue != [] then Join(Signatures(revmap, queue), ' ') + " " + Signature(revmap, k)
    else Signature(revmap, k)
  }

  /** The lookup key is the join of the signatures of the whole sequence, the new key last. */
  lemma LookupKeyIsJoin(revmap: map<nat, string>, queue: seq<KeyEvent>, k: KeyEvent)
    ensures LookupKey(revmap, queue, k) == Join(Signatures(revmap, queue + [k]), ' ')
  {
    var all := Signatures(revmap, queue + [k]);
    assert all == Signatures(revmap, queue) + [Signature(revmap, k)];
    if queue != [] {
      JoinSnoc(Signatures(revmap, queue), Signature(revmap, k), ' ');
    } else {
      assert all == [Signature(revmap, k)];
    }
  }

  // ---------------------------------------------------------------------
  // The interpreter
  // ---------------------------------------------------------------------

  /** The records of every queued key, in queue order. */
  function ForwardEvents(q: seq<KeyEvent>): seq<InputEvent>
    decreases |q|
  {
    if q == [] then [] else ForwardEvents(q[..|q| - 1]) + ToInputEvents(q[|q| - 1])
  }

  /** `call`'s target: module, function and argument, `None` when either name is missing. */
  function CallTarget(action: string): (r: Option<(string, string, Option<string>)>)
    ensures r.Some? ==> r.value.0 != [] && r.value.1 != []
  {
    var tmp := SplitAtMostTwice(Drop(action, 6), ':');
    var (modname, funcname, arg) :=
      if |tmp| == 3 then (tmp[0], tmp[1], Some(tmp[2]))
      else if |tmp| == 2 then (tmp[0], tmp[1], None)
      else ("", "", None);
    if modname != [] && funcname != [] then Some((modname, funcname, arg)) else None
  }

  /** The action words, in the order the interpreter tests for them. */
  datatype Verb =
    | IfVerb | ElseVerb | SendVerb | ForwardVerb | WaitVerb | ClearVerb
    | QuietVerb     // `none`, or `echo <message>`
    | ExecVerb | SetVerb | CallVerb
    | UnknownVerb

  /** The word an action begins with: the first test of the interpreter's chain it passes. */
  function VerbOf(action: string): Verb {
    if StartsWith(action, "if ") then IfVerb
    else if StartsWith(action, "else") then ElseVerb
    else if StartsWith(action, "send ") then SendVerb
    else if action == "forward" then ForwardVerb
    else if action == "wait" then WaitVerb
    else if action == "clear" then ClearVerb
    else if action == "none" || StartsWith(action, "echo ") then QuietVerb
    else if StartsWith(action, "exec ") then ExecVerb
    else if StartsWith(action, "set ") then SetVerb
    else if StartsWith(action, "call ") then CallVerb
    else UnknownVerb
  }

  /** The whole-word actions are recognised as themselves. */
  lemma VerbOfWords()
    ensures VerbOf("forward") == ForwardVerb && VerbOf("wait") == WaitVerb
    ensures VerbOf("clear") == ClearVerb && VerbOf("none") == QuietVerb
  {
    assert "forward"[0] == 'f' && "wait"[0] == 'w' && "clear"[0] == 'c' && "none"[0] == 'n';
  }

  /** What each verb says about the action's text. */
  lemma VerbOfMeans(action: string)
    ensures VerbOf(action) == WaitVerb ==> action == "wait"
    ensures VerbOf(action) == ClearVerb ==> action == "clear"
    ensures VerbOf(action) == ExecVerb ==> StartsWith(action, "exec ")
    ensures VerbOf(action) == SetVerb ==> StartsWith(action, "set ")
    ensures VerbOf(action) == CallVerb ==> StartsWith(action, "call ")
  {
  }

  /** An action that passed the gate. */
  function Effect(ctx: Context, action: string, k: KeyEvent, r: Run): Step {
    match VerbOf(action)
    case SendVerb => Next(r.(res := r.res + Expand(ctx.scancodes, action[5..])))
    case ForwardVerb => Next(r.(res := r.res + ForwardEvents(r.queue) + ToInputEvents(k)))
    case WaitVerb => Next(r.(queue := r.queue + [k]))
    case ClearVerb => Next(r.(queue := []))
    case ExecVerb => ExecEffect(ctx, action, r)
    case SetVerb => SetEffect(ctx, action, r)
    case CallVerb => CallEffect(ctx, action, k, r)
    case _ => Next(r)
  }

  /** `exec <statement>`: binds `res` to None, then runs the statement; a raise ends the call. */
  function ExecEffect(ctx: Context, action: string, r: Run): Step
    requires StartsWith(action, "exec ")
  {
    var done := ctx.ev.exec(action[5..], r.vars["res" := NoneValue]);
    if done.raised then Stop(Raised, r.queue, done.env) else Next(r.(vars := done.env))
  }

  /**
   * `set <name> <expression>`: binds the name to the expression's value.
   * Without a space after the name the call raises; if the expression
   * raises, the call returns no records.
   */
  function SetEffect(ctx: Context, action: string, r: Run): Step
    requires StartsWith(action, "set ")
  {
    match SplitOnce(action[4..], ' ')
    case None => Stop(Raised, r.queue, r.vars)
    case Some((name, expr)) =>
      match ctx.ev.eval(Strip(expr), r.vars)
      case None => Stop(Returned([]), r.queue, r.vars)
      case Some(v) => Next(r.(vars := r.vars[name := v]))
  }

  /**
   * `call`: with a module and a function name, the call ends with the
   * function's records (none if it raised); otherwise nothing happens.
   */
  function CallEffect(ctx: Context, action: string, k: KeyEvent, r: Run): Step {
    match CallTarget(action)
    case None => Next(r)
    case Some((m, f, arg)) =>
      var called := ctx.ev.call(m, f, r.queue + [k], r.vars, arg);
      Stop(Returned(if called.result.Some? then called.result.value else []), r.queue, called.env)
  }

  /** The step a method's results stand for. */
  function Resume(exit: Option<Exit>, queue: seq<KeyEvent>, vars: Env, res: seq<InputEvent>): Step {
    if exit.None? then Next(Run(queue, vars, true, res)) else Stop(exit.value, queue, vars)
  }

  /** One action: `if` and `else` always run and set the gate; every other action only while it is open. */
  function ExecAction(ctx: Context, action: string, k: KeyEvent, r: Run): Step {
    match VerbOf(action)
    case IfVerb =>
      (match ctx.ev.eval(action[3..], r.vars)
       case None => Stop(Raised, r.queue, r.vars)
       case Some(v) => Next(r.(gate := Truthy(v))))
    case ElseVerb => Next(r.(gate := !r.gate))
    case _ => if !r.gate then Next(r) else Effect(ctx, action, k, r)
  }

  /** A rule's actions from state `r` until one ends the call or the list runs out. */
  function RunActions(ctx: Context, actions: seq<string>, k: KeyEvent, r: Run): Outcome
    decreases |actions|
  {
    if actions == [] then Outcome(Returned(r.res), Session(r.queue, r.vars))
    else match ExecAction(ctx, actions[0], k, r)
      case Next(r') => RunActions(ctx, actions[1..], k, r')
      case Stop(exit, q, vars) => Outcome(exit, Session(q, vars))
  }

  /**
   * One key through the rule table: an unknown sequence yields nothing and
   * changes nothing; a known one binds `queue` and `keyevent` and runs its
   * actions with the gate open and no output yet.
   */
  function Dispatch(ctx: Context, rules: RuleTable, k: KeyEvent, s: Session): Outcome {
    var key := LookupKey(ctx.revmap, s.queue, k);
    if key in rules then
      var vars := s.vars["queue" := QueueValue(s.queue)]["keyevent" := EventValue(k)];
      RunActions(ctx, rules[key], k, Run(s.queue, vars, true, []))
    else
      Outcome(Returned([]), s)
  }

  lemma RunActionsStep(ctx: Context, actions: seq<string>, i: nat, k: KeyEvent, r: Run)
    requires i < |actions|
    ensures RunActions(ctx, actions[i..], k, r) ==
      match ExecAction(ctx, actions[i], k, r)
      case Next(r') => RunActions(ctx, actions[i + 1..], k, r')
      case Stop(exit, q, vars) => Outcome(exit, Session(q, vars))
  {
    assert actions[i..][1..] == actions[i + 1..];
  }

  // ---------------------------------------------------------------------
  // Properties of the interpreter
  // ---------------------------------------------------------------------

  /** An unknown key sequence yields nothing and leaves the queue and the variables as they were. */
  lemma DispatchMiss(ctx: Context, rules: RuleTable, k: KeyEvent, s: Session)
    requires LookupKey(ctx.revmap, s.queue, k) !in rules
    ensures Dispatch(ctx, rules, k, s) == Outcome(Returned([]), s)
  {
  }

  /** `if <e>` sets the gate to the truth of `e`, whether or not the gate is open; if `e` raises, so does the call. */
  lemma IfSetsGate(ctx: Context, e: string, k: KeyEvent, r: Run)
    ensures ExecAction(ctx, "if " + e, k, r) ==
      match ctx.ev.eval(e, r.vars)
      case None => Stop(Raised, r.queue, r.vars)
      case Some(v) => Next(r.(gate := Truthy(v)))
  {
    var a := "if " + e;
    assert a[..3] == "if ";
    assert a[3..] == e;
  }

  /** Any action beginning with `else` flips the gate, whether or not it is open. */
  lemma ElseFlipsGate(ctx: Context, action: string, k: KeyEvent, r: Run)
    requires StartsWith(action, "else")
    ensures ExecAction(ctx, action, k, r) == Next(r.(gate := !r.gate))
  {
    assert action[0] == 'e';
  }

  /** While the gate is closed every action but `if` and `else` is skipped. */
  lemma ClosedGateSkips(ctx: Context, action: string, k: KeyEvent, r: Run)
    requires !r.gate && !StartsWith(action, "if ") && !StartsWith(action, "else")
    ensures ExecAction(ctx, action, k, r) == Next(r)
  {
  }

  /** The records of a queue are those of its parts, in queue order. */
  lemma {:induction false} ForwardEventsAppend(a: seq<KeyEvent>, b: seq<KeyEvent>)
    ensures ForwardEvents(a + b) == ForwardEvents(a) + ForwardEvents(b)
    decreases |b|
  {
    if b != [] {
      var n := |b| - 1;
      assert (a + b)[..|a + b| - 1] == a + b[..n];
      ForwardEventsAppend(a, b[..n]);
      Assoc(ForwardEvents(a), ForwardEvents(b[..n]), ToInputEvents(b[n]));
    } else {
      assert a + b == a;
    }
  }

  /** `forward` replays every queued key in queue order and then the current one; the queue stays. */
  lemma ForwardReplays(ctx: Context, k: KeyEvent, r: Run)
    requires r.gate
    ensures ExecAction(ctx, "forward", k, r) == Next(r.(res := r.res + ForwardEvents(r.queue) + ToInputEvents(k)))
    ensures ForwardEvents(r.queue + [k]) == ForwardEvents(r.queue) + ToInputEvents(k)
  {
    VerbOfWords();
    ForwardEventsAppend(r.queue, [k]);
    assert ForwardEvents([k]) == ForwardEvents([]) + ToInputEvents(k) by {
      assert [k][..0] == [];
    }
  }

  /** `wait` appends the current key to the queue and `clear` empties it; neither produces records. */
  lemma WaitAndClear(ctx: Context, k: KeyEvent, r: Run)
    requires r.gate
    ensures ExecAction(ctx, "wait", k, r) == Next(r.(queue := r.queue + [k]))
    ensures ExecAction(ctx, "clear", k, r) == Next(r.(queue := []))
  {
    VerbOfWords();
  }

  /** A string that starts with `p` neither starts with nor equals a `q` that differs from `p` at `i`. */
  lemma PrefixesClash(s: string, p: string, q: string, i: nat)
    requires StartsWith(s, p) && i < |p| && i < |q| && p[i] != q[i]
    ensures !StartsWith(s, q) && s != q
  {
    assert s[i] == p[i];
  }

  /** An action beginning with `set ` is a `set`: no earlier test matches it. */
  lemma SetVerbOf(action: string)
    requires StartsWith(action, "set ")
    ensures VerbOf(action) == SetVerb
  {
    var p := "set ";
    PrefixesClash(action, p, "if ", 0);
    PrefixesClash(action, p, "else", 0);
    PrefixesClash(action, p, "send ", 2);
    PrefixesClash(action, p, "forward", 0);
    PrefixesClash(action, p, "wait", 0);
    PrefixesClash(action, p, "clear", 0);
    PrefixesClash(action, p, "none", 0);
    PrefixesClash(action, p, "echo ", 0);
    PrefixesClash(action, p, "exec ", 0);
  }

  /** With the gate open, an action beginning with `set ` is carried out as a `set`. */
  lemma SetDispatch(ctx: Context, action: string, k: KeyEvent, r: Run)
    requires r.gate && StartsWith(action, "set ")
    ensures ExecAction(ctx, action, k, r) == SetEffect(ctx, action, r)
  {
    SetVerbOf(action);
  }

  /** An action beginning with `call ` is a `call`: no earlier test matches it. */
  lemma CallVerbOf(action: string)
    requires StartsWith(action, "call ")
    ensures VerbOf(action) == CallVerb
  {
    var p := "call ";
    PrefixesClash(action, p, "if ", 0);
    PrefixesClash(action, p, "else", 0);
    PrefixesClash(action, p, "send ", 0);
    PrefixesClash(action, p, "forward", 0);
    PrefixesClash(action, p, "wait", 0);
    PrefixesClash(action, p, "clear", 1);
    PrefixesClash(action, p, "none", 0);
    PrefixesClash(action, p, "echo ", 0);
    PrefixesClash(action, p, "exec ", 0);
    PrefixesClash(action, p, "set ", 0);
  }

  /** With the gate open, an action beginning with `call ` is carried out as a `call`. */
  lemma CallDispatch(ctx: Context, action: string, k: KeyEvent, r: Run)
    requires r.gate && StartsWith(action, "call ")
    ensures ExecAction(ctx, action, k, r) == CallEffect(ctx, action, k, r)
  {
    CallVerbOf(action);
  }

  /** `send <keys>` appends the keys' records while the gate is open, and is skipped while it is closed. */
  lemma SendStep(ctx: Context, x: string, k: KeyEvent, r: Run)
    ensures ExecAction(ctx, "send " + x, k, r) == Next(if r.gate then r.(res := r.res + Expand(ctx.scancodes, x)) else r)
  {
    var a := "send " + x;
    assert a[..5] == "send ";
    PrefixesClash(a, "send ", "if ", 0);
    PrefixesClash(a, "send ", "else", 1);
    assert a[5..] == x;
  }

  /**
   * `if <e>; send <x>; else; send <y>` sends the keys of exactly one
   * branch: `x` when `e` is true, `y` when it is false.
   */
  lemma IfElseSendsOneBranch(ctx: Context, e: string, x: string, y: string, k: KeyEvent, r: Run)
    requires ctx.ev.eval(e, r.vars).Some?
    ensures Truthy(ctx.ev.eval(e, r.vars).value) ==>
      RunActions(ctx, ["if " + e, "send " + x, "else", "send " + y], k, r)
        == Outcome(Returned(r.res + Expand(ctx.scancodes, x)), Session(r.queue, r.vars))
    ensures !Truthy(ctx.ev.eval(e, r.vars).value) ==>
      RunActions(ctx, ["if " + e, "send " + x, "else", "send " + y], k, r)
        == Outcome(Returned(r.res + Expand(ctx.scancodes, y)), Session(r.queue, r.vars))
  {
    var acts := ["if " + e, "send " + x, "else", "send " + y];
    var t := Truthy(ctx.ev.eval(e, r.vars).value);
    var r1 := r.(gate := t);
    var r2 := if t then r1.(res := r1.res + Expand(ctx.scancodes, x)) else r1;
    var r3 := r2.(gate := !t);
    var r4 := if !t then r3.(res := r3.res + Expand(ctx.scancodes, y)) else r3;
    IfSetsGate(ctx, e, k, r);
    SendStep(ctx, x, k, r1);
    ElseFlipsGate(ctx, "else", k, r2);
    SendStep(ctx, y, k, r3);
    assert acts[0..] == acts;
    RunActionsStep(ctx, acts, 0, k, r);
    RunActionsStep(ctx, acts, 1, k, r1);
    RunActionsStep(ctx, acts, 2, k, r2);
    RunActionsStep(ctx, acts, 3, k, r3);
    assert acts[4..] == [];
  }

  /**
   * A `set` whose expression raises ends the call with no records, dropping
   * what earlier actions produced but keeping their queue and variable changes.
   */
  lemma SetFailureDiscards(ctx: Context, name: string, expr: string, rest: seq<string>, k: KeyEvent, r: Run)
    requires r.gate && ' ' !in name
    requires ctx.ev.eval(Strip(expr), r.vars).None?
    ensures RunActions(ctx, ["set " + (name + " " + expr)] + rest, k, r) == Outcome(Returned([]), Session(r.queue, r.vars))
  {
    var a := "set " + (name + " " + expr);
    assert a[..4] == "set ";
    assert a[4..] == name + " " + expr;
    SplitOnceAt(name, ' ', expr);
    SetDispatch(ctx, a, k, r);
    assert ([a] + rest)[0] == a;
  }

  /** A `set` with nothing after the name raises: the split happens outside the handler. */
  lemma SetWithoutValueRaises(ctx: Context, name: string, k: KeyEvent, r: Run)
    requires r.gate && ' ' !in name
    ensures ExecAction(ctx, "set " + name, k, r) == Stop(Raised, r.queue, r.vars)
  {
    var a := "set " + name;
    assert a[..4] == "set ";
    assert a[4..] == name;
    SetDispatch(ctx, a, k, r);
  }

  lemma DropCallPrefix(c: char, t: string)
    ensures Drop("call " + [c] + t, 6) == t
  {
    assert ("call " + [c] + t)[6..] == t;
  }

  /**
   * `call` reads its target from the seventh character on, so the first
   * character after `call ` is lost: `call ` + c + `m:f` calls `f` of
   * module `m`, with no argument.
   */
  lemma CallDropsOneCharacter(c: char, m: string, f: string)
    requires m != [] && f != [] && ':' !in m && ':' !in f
    ensures CallTarget("call " + [c] + (m + ":" + f)) == Some((m, f, None))
  {
    DropCallPrefix(c, m + ":" + f);
    SplitOnceAt(m, ':', f);
  }

  /** `call ` + c + `m:f:x` calls `f` of module `m` with argument `x`. */
  lemma CallWithArgument(c: char, m: string, f: string, x: string)
    requires m != [] && f != [] && ':' !in m && ':' !in f
    ensures CallTarget("call " + [c] + (m + ":" + (f + ":" + x))) == Some((m, f, Some(x)))
  {
    DropCallPrefix(c, m + ":" + (f + ":" + x));
    SplitOnceAt(m, ':', f + ":" + x);
    SplitOnceAt(f, ':', x);
  }

  /** A `call` that names a function ends the call with the function's records, skipping the remaining actions. */
  lemma CallShortCircuits(ctx: Context, action: string, rest: seq<string>, k: KeyEvent, r: Run)
    requires r.gate && StartsWith(action, "call ") && CallTarget(action).Some?
    ensures
      var (m, f, arg) := CallTarget(action).value;
      var called := ctx.ev.call(m, f, r.queue + [k], r.vars, arg);
      RunActions(ctx, [action] + rest, k, r) ==
        Outcome(Returned(if called.result.Some? then called.result.value else []), Session(r.queue, called.env))
  {
    CallDispatch(ctx, action, k, r);
    assert ([action] + rest)[0] == action;
  }

  /** A `call` with fewer than two `:`-separated parts after its dropped character does nothing. */
  lemma CallWithoutTargetIsSkipped(ctx: Context, action: string, k: KeyEvent, r: Run)
    requires r.gate && StartsWith(action, "call ") && ':' !in Drop(action, 6)
    ensures ExecAction(ctx, action, k, r) == Next(r)
  {
    CallDispatch(ctx, action, k, r);
    assert |SplitAtMostTwice(Drop(action, 6), ':')| == 1;
  }

  /** Unknown actions, and `none` and `echo`, change nothing. */
  lemma UnknownActionSkipped(ctx: Context, action: string, k: KeyEvent, r: Run)
    requires VerbOf(action) == QuietVerb || VerbOf(action) == UnknownVerb
    ensures ExecAction(ctx, action, k, r) == Next(r)
  {
  }

  /** An action that lets the loop go on changes the queue only if it is `wait` or `clear`. */
  lemma ExecActionKeepsQueue(ctx: Context, action: string, k: KeyEvent, r: Run)
    requires action != "wait" && action != "clear"
    ensures ExecAction(ctx, action, k, r).Next? ==> ExecAction(ctx, action, k, r).run.queue == r.queue
  {
    VerbOfMeans(action);
    assert VerbOf(action) != WaitVerb && VerbOf(action) != ClearVerb;
  }

  /** An action that lets the loop go on changes the variables only if it is an `exec`, `set` or `call`. */
  lemma ExecActionKeepsVars(ctx: Context, action: string, k: KeyEvent, r: Run)
    requires !StartsWith(action, "set ") && !StartsWith(action, "exec ") && !StartsWith(action, "call ")
    ensures ExecAction(ctx, action, k, r).Next? ==> ExecAction(ctx, action, k, r).run.vars == r.vars
  {
    VerbOfMeans(action);
    assert VerbOf(action) != ExecVerb && VerbOf(action) != SetVerb && VerbOf(action) != CallVerb;
  }

  /** Only `wait` and `clear` change the queue. */
  lemma {:induction false} QueueOnlyByWaitAndClear(ctx: Context, actions: seq<string>, k: KeyEvent, r: Run)
    requires forall i :: 0 <= i < |actions| ==> actions[i] != "wait" && actions[i] != "clear"
    ensures RunActions(ctx, actions, k, r).session.queue == r.queue
    decreases |actions|
  {
    if actions != [] {
      match ExecAction(ctx, actions[0], k, r)
      case Next(r') =>
        ExecActionKeepsQueue(ctx, actions[0], k, r);
        QueueOnlyByWaitAndClear(ctx, actions[1..], k, r');
      case Stop(_, _, _) =>
    }
  }

  /** Only `set`, `exec` and `call` change the variables. */
  lemma {:induction false} VarsOnlyBySetExecCall(ctx: Context, actions: seq<string>, k: KeyEvent, r: Run)
    requires forall i :: 0 <= i < |actions| ==>
      !StartsWith(actions[i], "set ") && !StartsWith(actions[i], "exec ") && !StartsWith(actions[i], "call ")
    ensures RunActions(ctx, actions, k, r).session.vars == r.vars
    decreases |actions|
  {
    if actions != [] {
      match ExecAction(ctx, actions[0], k, r)
      case Next(r') =>
        ExecActionKeepsVars(ctx, actions[0], k, r);
        VarsOnlyBySetExecCall(ctx, actions[1..], k, r');
      case Stop(_, _, _) =>
    }
  }

  lemma EmptyAppend<T>(a: seq<T>, b: seq<T>)
    ensures [] + a + b == a + b
  {
  }

  /** A key whose rule is `wait` is queued and produces nothing. */
  lemma WaitQueues(ctx: Context, rules: RuleTable, k: KeyEvent, s: Session)
    requires LookupKey(ctx.revmap, s.queue, k) in rules && rules[LookupKey(ctx.revmap, s.queue, k)] == ["wait"]
    ensures Dispatch(ctx, rules, k, s).exit == Returned([])
    ensures Dispatch(ctx, rules, k, s).session.queue == s.queue + [k]
  {
    var v := s.vars["queue" := QueueValue(s.queue)]["keyevent" := EventValue(k)];
    WaitAndClear(ctx, k, Run(s.queue, v, true, []));
    assert ["wait"][1..] == [];
  }

  /** A key whose rule is `forward; clear` replays the queue and itself, and empties the queue. */
  lemma ForwardAndClear(ctx: Context, rules: RuleTable, k: KeyEvent, s: Session)
    requires LookupKey(ctx.revmap, s.queue, k) in rules
    requires rules[LookupKey(ctx.revmap, s.queue, k)] == ["forward", "clear"]
    ensures Dispatch(ctx, rules, k, s).exit == Returned(ForwardEvents(s.queue + [k]))
    ensures Dispatch(ctx, rules, k, s).session.queue == []
  {
    var v := s.vars["queue" := QueueValue(s.queue)]["keyevent" := EventValue(k)];
    var r := Run(s.queue, v, true, []);
    ForwardReplays(ctx, k, r);
    EmptyAppend(ForwardEvents(s.queue), ToInputEvents(k));
    var r' := r.(res := ForwardEvents(s.queue + [k]));
    assert ExecAction(ctx, "forward", k, r) == Next(r');
    WaitAndClear(ctx, k, r');
    assert RunActions(ctx, ["forward", "clear"], k, r) == RunActions(ctx, ["clear"], k, r') by {
      assert ["forward", "clear"][1..] == ["clear"];
    }
    assert RunActions(ctx, ["clear"], k, r') == RunActions(ctx, [], k, r'.(queue := [])) by {
      assert ["clear"][1..] == [];
    }
  }

  /**
   * Two rules working together: the first key of a two-key sequence is
   * held back by `wait`; when the second arrives, `forward; clear`
   * replays both in arrival order and empties the queue.
   */
  lemma WaitThenForward(ctx: Context, rules: RuleTable, k1: KeyEvent, k2: KeyEvent, vars: Env)
    requires Signature(ctx.revmap, k1) in rules && rules[Signature(ctx.revmap, k1)] == ["wait"]
    requires Signature(ctx.revmap, k1) + " " + Signature(ctx.revmap, k2) in rules
    requires rules[Signature(ctx.revmap, k1) + " " + Signature(ctx.revmap, k2)] == ["forward", "clear"]
    ensures Dispatch(ctx, rules, k1, Session([], vars)).exit == Returned([])
    ensures Dispatch(ctx, rules, k1, Session([], vars)).session.queue == [k1]
    ensures
      var second := Dispatch(ctx, rules, k2, Dispatch(ctx, rules, k1, Session([], vars)).session);
      && second.exit == Returned(ToInputEvents(k1) + ToInputEvents(k2))
      && second.session.queue == []
  {
    var sig1, sig2 := Signature(ctx.revmap, k1), Signature(ctx.revmap, k2);
    var s0 := Session([], vars);
    assert LookupKey(ctx.revmap, s0.queue, k1) == sig1;
    WaitQueues(ctx, rules, k1, s0);
    var s1 := Dispatch(ctx, rules, k1, s0).session;
    assert s1.queue == [k1];
    assert Join(Signatures(ctx.revmap, [k1]), ' ') == sig1;
    assert LookupKey(ctx.revmap, s1.queue, k2) == sig1 + " " + sig2;
    ForwardAndClear(ctx, rules, k2, s1);
    ForwardTwo(k1, k2);
  }

  /** Replaying two queued keys replays the first, then the second. */
  lemma ForwardTwo(k1: KeyEvent, k2: KeyEvent)
    ensures ForwardEvents([k1] + [k2]) == ToInputEvents(k1) + ToInputEvents(k2)
  {
    ForwardEventsAppend([k1], [k2]);
    assert ForwardEvents([k1]) == ToInputEvents(k1) && ForwardEvents([k2]) == ToInputEvents(k2) by {
      assert [k1][..0] == [] && [k2][..0] == [];
    }
  }

  // ---------------------------------------------------------------------
  // The parser object
  // ---------------------------------------------------------------------

  class KeymapParser {
    /** Signature to actions, fixed once the file is loaded. */
    const rules: RuleTable
    /** Keys held back by `wait`, oldest first. */
    var queue: seq<KeyEvent>
    /** Variables shared by the evaluated expressions and statements. */
    var vars: Env

    constructor(rules: RuleTable)
      ensures this.rules == rules && queue == [] && vars == map[]
    {
      this.rules := rules;
      queue := [];
      vars := map[];
    }

    /** Appends the records of every queued key and then of `k` to `res0`. */
    method Forward(k: KeyEvent, res0: seq<InputEvent>) returns (res: seq<InputEvent>)
      ensures res == res0 + ForwardEvents(queue) + ToInputEvents(k)
    {
      res := res0;
      for j := 0 to |queue|
        invariant res == res0 + ForwardEvents(queue[..j])
      {
        assert queue[..j + 1][..j] == queue[..j];
        Assoc(res0, ForwardEvents(queue[..j]), ToInputEvents(queue[j]));
        res := res + ToInputEvents(queue[j]);
      }
      assert queue[..|queue|] == queue;
      res := res + ToInputEvents(k);
    }

    /** Carries out one action that passed the gate; `exit` is set when it ends the call. */
    method Perform(ctx: Context, action: string, k: KeyEvent, res0: seq<InputEvent>)
      returns (res: seq<InputEvent>, exit: Option<Exit>)
      modifies this
      ensures Effect(ctx, action, k, Run(old(queue), old(vars), true, res0)) == Resume(exit, queue, vars, res)
    {
      res, exit := res0, None;
      match VerbOf(action)
      case SendVerb =>
        var keys := MakeKeyEvents(ctx.scancodes, action[5..]);
        res := res + keys;
      case ForwardVerb =>
        res := Forward(k, res);
      case WaitVerb =>
        queue := queue + [k];
      case ClearVerb =>
        queue := [];
      case ExecVerb =>
        exit := Exec(ctx, action, res);
      case SetVerb =>
        exit, vars := Set(ctx, action, res);
      case CallVerb =>
        exit := Call(ctx, action, k, res);
      case _ =>
    }

    method Exec(ctx: Context, action: string, res: seq<InputEvent>) returns (exit: Option<Exit>)
      requires StartsWith(action, "exec ")
      modifies this
      ensures ExecEffect(ctx, action, Run(old(queue), old(vars), true, res)) == Resume(exit, queue, vars, res)
    {
      exit := None;
      vars := vars["res" := NoneValue];
      var done := ctx.ev.exec(action[5..], vars);
      vars := done.env;
      if done.raised {
        exit := Some(Raised);
      }
    }

    /** Carries out a `set`, returning the variables it leaves; the caller stores them. */
    method Set(ctx: Context, action: string, res: seq<InputEvent>) returns (exit: Option<Exit>, env: Env)
      requires StartsWith(action, "set ")
      ensures SetEffect(ctx, action, Run(queue, vars, true, res)) == Resume(exit, queue, env, res)
    {
      exit, env := None, vars;
      match SplitOnce(action[4..], ' ') {
        case None =>
          exit := Some(Raised);
        case Some((name, expr)) =>
          match ctx.ev.eval(Strip(expr), vars) {
            case None => exit := Some(Returned([]));
            case Some(v) => env := vars[name := v];
          }
      }
    }

    method Call(ctx: Context, action: string, k: KeyEvent, res: seq<InputEvent>) returns (exit: Option<Exit>)
      modifies this
      ensures CallEffect(ctx, action, k, Run(old(queue), old(vars), true, res)) == Resume(exit, queue, vars, res)
    {
      exit := None;
      var tmp := SplitAtMostTwice(Drop(action, 6), ':');
      var modname, funcname: string, arg: Option<string> := "", "", None;
      if |tmp| == 3 {
        modname, funcname, arg := tmp[0], tmp[1], Some(tmp[2]);
      } else if |tmp| == 2 {
        modname, funcname := tmp[0], tmp[1];
      }
      assert CallTarget(action) == if modname != [] && funcname != [] then Some((modname, funcname, arg)) else None;
      if modname != [] && funcname != [] {
        var called := ctx.ev.call(modname, funcname, queue + [k], vars, arg);
        vars := called.env;
        match called.result {
          case None => exit := Some(Returned([]));
          case Some(events) => exit := Some(Returned(events));
        }
      }
    }

    /**
     * One action of a rule: `if` and `else` set the gate, anything else is
     * carried out while the gate is open; `stop` is set when it ends the call.
     */
    method RunAction(ctx: Context, action: string, k: KeyEvent, state0: bool, res0: seq<InputEvent>)
      returns (state: bool, res: seq<InputEvent>, stop: Option<Exit>)
      modifies this
      ensures stop.None? ==> ExecAction(ctx, action, k, Run(old(queue), old(vars), state0, res0)) == Next(Run(queue, vars, state, res))
      ensures stop.Some? ==> ExecAction(ctx, action, k, Run(old(queue), old(vars), state0, res0)) == Stop(stop.value, queue, vars)
    {
      state, res, stop := state0, res0, None;
      var verb := VerbOf(action);
      if verb == IfVerb {
        var v := ctx.ev.eval(action[3..], vars);
        if v.None? {
          return state, res, Some(Raised);
        }
        state := Truthy(v.value);
      } else if verb == ElseVerb {
        state := !state;
      } else if state {
        res, stop := Perform(ctx, action, k, res);
      }
    }

    /** Handles one key: looks its sequence up and runs the matching rule's actions. */
    method Process(ctx: Context, k: KeyEvent) returns (exit: Exit)
      modifies this
      ensures Outcome(exit, Session(queue, vars)) == Dispatch(ctx, rules, k, old(Session(queue, vars)))
    {
      ghost var goal := Dispatch(ctx, rules, k, Session(queue, vars));
      var s: string;
      if queue != [] {
        s := Join(Signatures(ctx.revmap, queue), ' ') + " " + Signature(ctx.revmap, k);
      } else {
        s := Signature(ctx.revmap, k);
      }
      if s !in rules {
        return Returned([]);
      }
      vars := vars["queue" := QueueValue(queue)]["keyevent" := EventValue(k)];
      var actions := rules[s];
      var res: seq<InputEvent> := [];
      var state := true;
      for i := 0 to |actions|
        invariant RunActions(ctx, actions[i..], k, Run(queue, vars, state, res)) == goal
      {
        RunActionsStep(ctx, actions, i, k, Run(queue, vars, state, res));
        var stop;
        state, res, stop := RunAction(ctx, actions[i], k, state, res);
        if stop.Some? {
          return stop.value;
        }
      }
      assert actions[|actions|..] == [];
      return Returned(res);
    }
  }

  /** Builds a parser from a rule file, or gives the index of the first line without `=`. */
  method NewKeymapParser(lines: seq<string>) returns (r: Result<KeymapParser, nat>)
    ensures r.Failure? <==> ParseRules(lines).Failure?
    ensures r.Failure? ==> r.error == ParseRules(lines).error
    ensures r.Success? ==>
      && fresh(r.value)
      && r.value.rules == ParseRules(lines).value
      && r.value.queue == []
      && r.value.vars == map[]
  {
    var rules := LoadRules(lines);
    if rules.Failure? {
      return Failure(rules.error);
    }
    var p := new KeymapParser(rules.value);
    return Success(p);
  }
}

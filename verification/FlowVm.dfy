/**
  The register machine that runs Flow programs.
 */
module FlowVm {
  import opened Wrappers
  import opened FlowCore
  import opened PrefixIndex

  /** Instructions. `T` is what a jump names: a block while code is generated, an address in a
      finished program. Immediate operands are 16 bits wide. */
  datatype Code<+T> =
    | Nop
    | Exit(result: bool)
    | Jmp(t: T)
    | Jn(r: nat, t: T)
    | Jz(r: nat, t: T)
    | Mov(d: nat, s: nat)
    | Imov(d: nat, n: nat)
    | Const(d: nat, c: Const)
    | Rr(uop: UnOp, d: nat, s: nat)
    | Rrr(op: BinOp, d: nat, a: nat, b: nat)
    | Rri(op: BinOp, d: nat, a: nat, n: nat)
    | SMatch(r: nat, id: nat)
    | CallN(f: string, argc: nat, base: nat)
    | HandlerN(f: string, argc: nat, base: nat)

  /** An entry of the program's match table. */
  datatype Def<+T> = Def(mc: MatchClass, labels: seq<Label>, targets: seq<T>, other: T)

  datatype Program = Program(code: seq<Code<nat>>, defs: seq<Def<nat>>)

  // ---------------------------------------------------------------- match tables

  /** The table built by inserting every literal label with its address, in order; `key` is
      the identity, or reversal for matches on the end of the string. */
  function Table(key: string -> string, labels: seq<Label>, targets: seq<nat>): map<string, nat>
    requires |targets| == |labels|
  {
    if labels == [] then map[] else
      var n := |labels| - 1;
      var t := Table(key, labels[..n], targets[..n]);
      if labels[n].Literal? then t[key(labels[n].s) := targets[n]] else t
  }

  function FirstMatch(m: Machine, labels: seq<Label>, targets: seq<nat>, other: nat, s: string): nat
    requires |targets| == |labels|
  {
    if labels == [] then other
    else if labels[0].Pattern? && m.matches(labels[0].id, s) then targets[0]
    else FirstMatch(m, labels[1..], targets[1..], other, s)
  }

  /** Where a match instruction goes on string s: exact matches use a hash map, prefix and
      suffix matches a tree, for which an address of 0 means that there is no entry. */
  function Evaluate(m: Machine, d: Def<nat>, s: string): nat {
    if |d.targets| != |d.labels| then d.other else
      match d.mc
      case Same =>
        var t := Table(k => k, d.labels, d.targets);
        if s in t then t[s] else d.other
      case Head =>
        var r := LongestPrefix(Table(k => k, d.labels, d.targets), s);
        if r != 0 then r else d.other
      case Tail =>
        var r := LongestPrefix(Table(k => Reverse(k), d.labels, d.targets), Reverse(s));
        if r != 0 then r else d.other
      case RegEx => FirstMatch(m, d.labels, d.targets, d.other, s)
  }

  function Selected(m: Machine, mc: MatchClass, labels: seq<Label>, targets: seq<nat>, other: nat, s: string): nat
    requires |targets| == |labels|
  {
    match Pick(m, mc, labels, s)
    case Some(k) => targets[k]
    case None => other
  }

  /** Whether label j decides: it fits, and no other one that fits goes before it. */
  ghost predicate Decides(m: Machine, mc: MatchClass, labels: seq<Label>, s: string, j: nat) {
    && j < |labels| && Fits(m, mc, labels[j], s)
    && forall k | 0 <= k < |labels| && k != j && Fits(m, mc, labels[k], s) ::
         if mc == RegEx then j < k
         else LabelSize(labels[k]) < LabelSize(labels[j]) || (LabelSize(labels[k]) == LabelSize(labels[j]) && k < j)
  }

  /** The label picked is the one that decides, and none is picked only if none fits. */
  lemma {:induction false} PickDecides(m: Machine, mc: MatchClass, labels: seq<Label>, s: string)
    ensures var r := Pick(m, mc, labels, s);
            if r.Some? then Decides(m, mc, labels, s, r.value) else forall k | 0 <= k < |labels| ::
                  !Fits(m, mc, labels[k], s)
  {
    hide Fits;
    if labels != [] {
      var n := |labels| - 1;
      PickDecides(m, mc, labels[..n], s);
      assert forall k | 0 <= k < n :: labels[..n][k] == labels[k];
    }
  }

  lemma {:induction false} SameTable(m: Machine, labels: seq<Label>, targets: seq<nat>, s: string)
    requires |targets| == |labels|
    ensures var t := Table(k => k, labels, targets); var r := Pick(m, Same, labels, s);
            (s in t <==> r.Some?) && (r.Some? ==> t[s] == targets[r.value])
  {
    if labels != [] {
      var n := |labels| - 1;
      SameTable(m, labels[..n], targets[..n], s);
    }
  }

  /** Where a case of d can be found: the trees know of a label only what was written last, and
      take address 0 for nothing. */
  ghost predicate Live(d: Def<nat>, k: nat) {
    && k < |d.labels| == |d.targets|
    && (d.mc in {Head, Tail} ==> d.targets[k] != 0 && forall j | k < j < |d.labels| :: d.labels[j] != d.labels[k])
  }

  /** Whether case k of d decides among those that can be found. */
  ghost predicate GoesTo(m: Machine, d: Def<nat>, s: string, k: nat) {
    && Live(d, k) && Fits(m, d.mc, d.labels[k], s)
    && forall j: nat | Live(d, j) && j != k && Fits(m, d.mc, d.labels[j], s) ::
         if d.mc == RegEx then k < j
         else LabelSize(d.labels[j]) < LabelSize(d.labels[k])
              || (LabelSize(d.labels[j]) == LabelSize(d.labels[k]) && j < k)
  }

  /** The label of a table is the one written last. */
  lemma {:induction false} TableLast(key: string -> string, labels: seq<Label>, targets: seq<nat>, k: nat)
    requires |targets| == |labels| && k < |labels| && labels[k].Literal?
    requires forall j | k < j < |labels| && labels[j].Literal? :: key(labels[j].s) != key(labels[k].s)
    ensures var t := Table(key, labels, targets); key(labels[k].s) in t && t[key(labels[k].s)] == targets[k]
    decreases |labels|
  {
    var n := |labels| - 1;
    if k < n { TableLast(key, labels[..n], targets[..n], k); }
  }

  lemma {:induction false} TableFrom(key: string -> string, labels: seq<Label>, targets: seq<nat>, x: string)
      returns (k: nat)
    requires |targets| == |labels| && x in Table(key, labels, targets)
    ensures k < |labels| && labels[k].Literal? && key(labels[k].s) == x
    ensures forall j | k < j < |labels| && labels[j].Literal? :: key(labels[j].s) != x
    decreases |labels|
  {
    var n := |labels| - 1;
    if labels[n].Literal? && key(labels[n].s) == x {
      k := n;
    } else {
      k := TableFrom(key, labels[..n], targets[..n], x);
    }
  }

  /** The key under which a class of match enters its labels. */
  ghost predicate KeyOf(mc: MatchClass, key: string -> string) {
    (mc == Head && key == ((k: string) => k)) || (mc == Tail && key == ((k: string) => Reverse(k)))
  }

  lemma FitsByKey(m: Machine, mc: MatchClass, key: string -> string, l: string, s: string)
    requires KeyOf(mc, key)
    ensures |key(l)| == |l| && (Fits(m, mc, Literal(l), s) <==> l != "" && key(l) <= key(s))
  {
    ReversePrefix(l, s);
  }

  lemma KeyInjective(mc: MatchClass, key: string -> string, a: string, b: string)
    requires KeyOf(mc, key)
    ensures key(a) == key(b) <==> a == b
  {
    if mc == Tail {
      ReverseTwice(a);
      ReverseTwice(b);
    }
  }

  lemma LiveEntered(m: Machine, d: Def<nat>, key: string -> string, s: string, j: nat)
    requires |d.targets| == |d.labels| && KeyOf(d.mc, key) && Live(d, j) && Fits(m, d.mc, d.labels[j], s)
    ensures d.labels[j].Literal?
    ensures var t := Table(key, d.labels, d.targets); var l := d.labels[j].s;
            key(l) in t && t[key(l)] == d.targets[j] && |key(l)| == |l| > 0 && key(l) <= key(s)
            && |l| <= LongestLength(t, key(s))
  {
    hide Fits, Table;
    FitsLiteral(m, d.mc, d.labels[j], s);
    var l := d.labels[j].s;
    forall i | j < i < |d.labels| && d.labels[i].Literal? ensures key(d.labels[i].s) != key(l) {
      KeyInjective(d.mc, key, d.labels[i].s, l);
    }
    TableLast(key, d.labels, d.targets, j);
    FitsByKey(m, d.mc, key, l, s);
    assert key(s)[..|l|] == key(l);
  }

  lemma FitsLiteral(m: Machine, mc: MatchClass, l: Label, s: string)
    requires Fits(m, mc, l, s) && mc != RegEx
    ensures l.Literal?
  {
  }

  /** Prefix and suffix trees go to the longest of the labels that can be found. */
  lemma TreeGoes(m: Machine, d: Def<nat>, key: string -> string, s: string)
    requires |d.targets| == |d.labels| && KeyOf(d.mc, key)
    ensures var r := LongestPrefix(Table(key, d.labels, d.targets), key(s));
            if exists k: nat :: Live(d, k) && Fits(m, d.mc, d.labels[k], s) then
              r != 0 && exists k: nat :: GoesTo(m, d, s, k) && r == d.targets[k]
            else r == 0
  {
    hide Fits, Table, LongestLength;
    var t, q := Table(key, d.labels, d.targets), key(s);
    var n := LongestLength(t, q);
    if n > 0 {
      var k := TableFrom(key, d.labels, d.targets, q[..n]);
      var l := d.labels[k].s;
      FitsByKey(m, d.mc, key, l, s);
      forall j | k < j < |d.labels| ensures d.labels[j] != d.labels[k] { KeyInjectiveAt(d, key, j, k); }
      TableLast(key, d.labels, d.targets, k);
      assert Live(d, k) && Fits(m, d.mc, d.labels[k], s);
      forall j: nat | Live(d, j) && j != k && Fits(m, d.mc, d.labels[j], s)
        ensures LabelSize(d.labels[j]) < LabelSize(d.labels[k]) {
        LiveEntered(m, d, key, s, j);
        FitsLiteral(m, d.mc, d.labels[j], s);
        if |d.labels[j].s| == n {
          assert key(d.labels[j].s) == q[..n];
          KeyInjective(d.mc, key, d.labels[j].s, l);
          OnlyOne(d, j, k);
        }
      }
      assert GoesTo(m, d, s, k);
    } else {
      forall k: nat | Live(d, k) ensures !Fits(m, d.mc, d.labels[k], s) {
        if Fits(m, d.mc, d.labels[k], s) {
          LiveEntered(m, d, key, s, k);
          assert false;
        }
      }
    }
  }

  lemma KeyInjectiveAt(d: Def<nat>, key: string -> string, j: nat, k: nat)
    requires KeyOf(d.mc, key) && j < |d.labels| && k < |d.labels| && d.labels[k].Literal?
    requires d.labels[j].Literal? ==> key(d.labels[j].s) != key(d.labels[k].s)
    ensures d.labels[j] != d.labels[k]
  {
  }

  lemma OnlyOne(d: Def<nat>, j: nat, k: nat)
    requires Live(d, j) && Live(d, k) && d.labels[j] == d.labels[k] && d.mc in {Head, Tail}
    ensures j == k
  {
  }

  lemma {:induction false} PickFirst(m: Machine, labels: seq<Label>, s: string)
    requires labels != []
    ensures Pick(m, RegEx, labels, s) ==
            if Fits(m, RegEx, labels[0], s) then Some(0) else
              match Pick(m, RegEx, labels[1..], s) case Some(k) => Some(k + 1) case None => None
    decreases |labels|
  {
    if |labels| == 1 {
      assert labels[..0] == [] && labels[1..] == [];
    } else {
      var n := |labels| - 1;
      PickFirst(m, labels[..n], s);
      assert labels[..n][1..] == labels[1..][..n - 1];
    }
  }

  lemma {:induction false} PatternTable(m: Machine, labels: seq<Label>, targets: seq<nat>, other: nat, s: string)
    requires |targets| == |labels|
    ensures FirstMatch(m, labels, targets, other, s) == Selected(m, RegEx, labels, targets, other, s)
  {
    if labels != [] {
      PickFirst(m, labels, s);
      PatternTable(m, labels[1..], targets[1..], other, s);
    }
  }

  /** For every table, whatever its addresses: the match instruction goes to the deciding one of
      the cases that can be found, and to the else block if none of them fits. */
  lemma EvaluateGoes(m: Machine, d: Def<nat>, s: string)
    requires |d.targets| == |d.labels|
    ensures if exists k: nat :: Live(d, k) && Fits(m, d.mc, d.labels[k], s) then
              exists k: nat :: GoesTo(m, d, s, k) && Evaluate(m, d, s) == d.targets[k]
            else Evaluate(m, d, s) == d.other
  {
    hide Fits, Table, LongestPrefix;
    match d.mc
    case Head => TreeGoes(m, d, k => k, s);
    case Tail => TreeGoes(m, d, k => Reverse(k), s);
    case _ =>
      if d.mc == Same { SameTable(m, d.labels, d.targets, s); } else { PatternTable(m, d.labels, d.targets, d.other, s);
          }
      PickDecides(m, d.mc, d.labels, s);
      var r := Pick(m, d.mc, d.labels, s);
      if r.Some? {
        assert Live(d, r.value) && GoesTo(m, d, s, r.value);
      } else {
        forall k: nat | Live(d, k) ensures !Fits(m, d.mc, d.labels[k], s) { }
      }
  }

  /** The source picks a case of a prefix or suffix match that has address 0. */
  predicate ZeroPicked(m: Machine, d: Def<nat>, s: string)
    requires |d.targets| == |d.labels|
  {
    d.mc in {Head, Tail} && var r := Pick(m, d.mc, d.labels, s); r.Some? && d.targets[r.value] == 0
  }

  /** The match instruction goes where the source does exactly if that is not a prefix or suffix
      case at address 0, or nothing can be found and the else block is at address 0 too. */
  lemma EvaluateSelects(m: Machine, d: Def<nat>, s: string)
    requires |d.targets| == |d.labels|
    ensures Evaluate(m, d, s) == Selected(m, d.mc, d.labels, d.targets, d.other, s)
       <==> (ZeroPicked(m, d, s) ==> d.other == 0 && forall k: nat | Live(d, k) :: !Fits(m, d.mc, d.labels[k], s))
  {
    hide Fits, Table, LongestPrefix, Evaluate, Pick;
    EvaluateGoes(m, d, s);
    PickDecides(m, d.mc, d.labels, s);
    var r := Pick(m, d.mc, d.labels, s);
    if r.Some? && !ZeroPicked(m, d, s) {
      PickedGoes(m, d, s, r.value);
    }
  }

  lemma PickedGoes(m: Machine, d: Def<nat>, s: string, k: nat)
    requires |d.targets| == |d.labels| && Decides(m, d.mc, d.labels, s, k)
             && (d.mc in {Head, Tail} ==> d.targets[k] != 0)
    ensures GoesTo(m, d, s, k) && forall j: nat | GoesTo(m, d, s, j) :: j == k
  {
    hide Fits;
    if d.mc in {Head, Tail} {
      forall j | k < j < |d.labels| ensures d.labels[j] != d.labels[k] {
        var l := d.labels[j];
        assert l == d.labels[k] ==> Fits(m, d.mc, l, s);
      }
    }
    assert Live(d, k);
  }

  // ---------------------------------------------------------------- running

  type Regs = map<nat, Val>

  function Reg(regs: Regs, r: nat): Val {
    if r in regs then regs[r] else Num(0)
  }

  /** Arguments of a call: the registers behind the base register. */
  function Args(regs: Regs, argc: nat, base: nat): (r: seq<Val>)
    ensures |r| == (if argc == 0 then 0 else argc - 1)
  {
    seq(if argc == 0 then 0 else argc - 1, i requires 0 <= i => Reg(regs, base + 1 + i))
  }

  datatype VmState = Running(pc: nat, regs: Regs, tr: Trace) | Stopped(result: bool, tr: Trace)

  function VmStep(m: Machine, p: Program, s: VmState): VmState {
    if s.Stopped? || s.pc >= |p.code| then s else
      var regs := s.regs;
      var next := s.(pc := s.pc + 1);
      match p.code[s.pc]
      case Nop => next
      case Exit(result) => Stopped(result, s.tr)
      case Jmp(t) => s.(pc := t)
      case Jn(r, t) => if Truthy(Reg(regs, r)) then s.(pc := t) else next
      case Jz(r, t) => if Truthy(Reg(regs, r)) then next else s.(pc := t)
      case Mov(d, r) => next.(regs := regs[d := Reg(regs, r)])
      case Imov(d, n) => next.(regs := regs[d := Num(n)])
      case Const(d, c) => next.(regs := regs[d := ConstVal(c)])
      case Rr(op, d, r) => next.(regs := regs[d := m.un(op, Reg(regs, r))])
      case Rrr(op, d, a, b) => next.(regs := regs[d := m.bin(op, Reg(regs, a), Reg(regs, b))])
      case Rri(op, d, a, n) => next.(regs := regs[d := m.bin(op, Reg(regs, a), Num(n))])
      case SMatch(r, id) =>
        if id >= |p.defs| then s else
          var v := Reg(regs, r);
          s.(pc := if v.Text? then Evaluate(m, p.defs[id], v.s) else p.defs[id].other)
      case CallN(f, argc, base) =>
        var args := Args(regs, argc, base);
        next.(regs := regs[base := m.call(f, args, s.tr)], tr := s.tr + [Event(f, args)])
      case HandlerN(f, argc, base) =>
        var args := Args(regs, argc, base);
        if m.handles(f, args, s.tr) then Stopped(true, s.tr + [Event(f, args)])
        else next.(regs := regs[base := Num(0)], tr := s.tr + [Event(f, args)])
  }

  function VmRun(m: Machine, p: Program, s: VmState, n: nat): VmState
    decreases n
  {
    if n == 0 then s else VmRun(m, p, VmStep(m, p, s), n - 1)
  }

  ghost predicate VmReaches(m: Machine, p: Program, s: VmState, t: VmState) {
    exists n: nat :: VmRun(m, p, s, n) == t
  }

  lemma {:induction false} VmRunAdd(m: Machine, p: Program, s: VmState, n: nat, k: nat)
    ensures VmRun(m, p, s, n + k) == VmRun(m, p, VmRun(m, p, s, n), k)
    decreases n
  {
    if n > 0 {
      VmRunAdd(m, p, VmStep(m, p, s), n - 1, k);
    }
  }

  lemma {:induction false} StoppedStays(m: Machine, p: Program, s: VmState, n: nat)
    requires s.Stopped?
    ensures VmRun(m, p, s, n) == s
  {
    if n > 0 {
      StoppedStays(m, p, s, n - 1);
    }
  }

  /** Runs of the same program from the same state that stop, stop in the same state. */
  lemma StoppedUnique(m: Machine, p: Program, s: VmState, t: VmState, u: VmState)
    requires t.Stopped? && u.Stopped? && VmReaches(m, p, s, t) && VmReaches(m, p, s, u)
    ensures t == u
  {
    var n: nat :| VmRun(m, p, s, n) == t;
    var k: nat :| VmRun(m, p, s, k) == u;
    if n <= k {
      VmRunAdd(m, p, s, n, k - n);
      StoppedStays(m, p, t, k - n);
    } else {
      VmRunAdd(m, p, s, k, n - k);
      StoppedStays(m, p, u, n - k);
    }
  }
}

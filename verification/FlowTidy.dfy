/**
  An invariant of the builder that needs nothing of the program being lowered. It keeps track of
  two things: which loads still hold what their variable holds, and which stores are laid out
  before the value they store.
 */
module FlowTidy {
  import opened FlowAst
  import opened FlowIr
  import opened FlowLowering
  import opened FlowShape
  import opened FlowRegisters
  import opened FlowLayout

  // ---------------------------------------------------------------- loads that are up to date

  /** The up-to-date loads after instruction i: a load becomes one, a store ends those of its variable. */
  function After(now: set<Value>, i: Instr): set<Value> {
    match i
    case Load(id, x) => now + {Loaded(id, x)}
    case Store(x, _) => set v | v in now && !(v.Loaded? && v.x == x)
    case _ => now
  }

  function Current(now: set<Value>, block: Block): set<Value>
    decreases |block|
  {
    if block == [] then now else After(Current(now, block[..|block| - 1]), block[|block| - 1])
  }

  function Targets(i: Instr): seq<nat> {
    match i
    case Br(t) => [t]
    case CondBr(_, t, e) => [t, e]
    case Match(_, _, _, targets, other) => targets + [other]
    case _ => []
  }

  /** Instruction i uses only loads that are up to date, and goes only to blocks that count on no others. */
  ghost predicate InstrTracked(entry: seq<set<Value>>, now: set<Value>, i: Instr) {
    && (forall v | v in Operands(i) && v.Loaded? :: v in now)
    && (forall t | t in Targets(i) :: t < |entry| && entry[t] <= now)
  }

  ghost predicate BlockTracked(entry: seq<set<Value>>, now: set<Value>, block: Block) {
    forall i | 0 <= i < |block| :: InstrTracked(entry, Current(now, block[..i]), block[i])
  }

  /** `entry` says which loads are up to date at the start of each block, whichever way it is reached. */
  ghost predicate Tracked(G: Cfg, entry: seq<set<Value>>) {
    |entry| == |G| && forall b | 0 <= b < |G| :: BlockTracked(entry, entry[b], G[b])
  }

  ghost predicate LoadsBelow(now: set<Value>, n: nat) {
    forall v | v in now :: v.Loaded? && v.x < n
  }

  ghost predicate Tracking(g: Gen, entry: seq<set<Value>>) {
    Tracked(g.blocks, entry) && forall b | 0 <= b < |g.blocks| :: LoadsBelow(Current(entry[b], g.blocks[b]), g.next)
  }

  function Now(g: Gen, entry: seq<set<Value>>): set<Value>
    requires g.cur < |g.blocks| == |entry|
  {
    Current(entry[g.cur], g.blocks[g.cur])
  }

  lemma CurrentAppend(now: set<Value>, block: Block, i: Instr)
    ensures Current(now, block + [i]) == After(Current(now, block), i)
  {
    assert (block + [i])[..|block|] == block;
  }

  lemma BlockTrackedAppend(entry: seq<set<Value>>, now: set<Value>, block: Block, x: Instr)
    requires BlockTracked(entry, now, block) && InstrTracked(entry, Current(now, block), x)
    ensures BlockTracked(entry, now, block + [x])
  {
    hide Current, InstrTracked;
    var after := block + [x];
    forall i | 0 <= i < |after| ensures InstrTracked(entry, Current(now, after[..i]), after[i]) {
      assert after[..i] == block[..i];
      if i == |block| { assert block[..i] == block; }
    }
  }

  lemma EmitTracked(g: Gen, entry: seq<set<Value>>, x: Instr)
    requires g.Valid() && Tracked(g.blocks, entry) && InstrTracked(entry, Now(g, entry), x)
    ensures Tracked(Emit(g, x).blocks, entry)
    ensures Now(Emit(g, x), entry) == After(Now(g, entry), x)
  {
    hide BlockTracked, InstrTracked, After, Current;
    BlockTrackedAppend(entry, entry[g.cur], g.blocks[g.cur], x);
    CurrentAppend(entry[g.cur], g.blocks[g.cur], x);
  }

  lemma EmitTracking(g: Gen, entry: seq<set<Value>>, x: Instr, next: nat)
    requires g.Valid() && Tracking(g, entry) && InstrTracked(entry, Now(g, entry), x) && g.next <= next
    requires x.Load? ==> x.x < next
    ensures Tracking(Emit(g, x).(next := next), entry)
    ensures Now(Emit(g, x), entry) == After(Now(g, entry), x)
  {
    hide Current, InstrTracked, Tracked;
    assert |entry| == |g.blocks| by { TrackedSize(g.blocks, entry); }
    EmitTracked(g, entry, x);
    var r := Emit(g, x);
    forall b | 0 <= b < |r.blocks| ensures LoadsBelow(Current(entry[b], r.blocks[b]), next) {
      assert LoadsBelow(Current(entry[b], g.blocks[b]), g.next);
    }
  }

  lemma TrackedSize(G: Cfg, entry: seq<set<Value>>)
    requires Tracked(G, entry)
    ensures |entry| == |G|
  {
  }

  /** More blocks: what is tracked for the old ones stays so. */
  lemma BlockTrackedMore(entry: seq<set<Value>>, entry': seq<set<Value>>, now: set<Value>, block: Block)
    requires BlockTracked(entry, now, block) && entry <= entry'
    ensures BlockTracked(entry', now, block)
  {
    hide Current;
    forall i | 0 <= i < |block| ensures InstrTracked(entry', Current(now, block[..i]), block[i]) {
      assert InstrTracked(entry, Current(now, block[..i]), block[i]);
    }
  }

  lemma NewTracked(G: Cfg, entry: seq<set<Value>>, sets: seq<set<Value>>)
    requires Tracked(G, entry)
    ensures Tracked(G + seq(|sets|, _ => []), entry + sets)
  {
    hide BlockTracked;
    var G', entry' := G + seq(|sets|, _ => []), entry + sets;
    forall b | 0 <= b < |G'| ensures BlockTracked(entry', entry'[b], G'[b]) {
      if b < |G| { BlockTrackedMore(entry, entry', entry[b], G[b]); } else { EmptyTracked(entry', entry'[b]); }
    }
  }

  lemma EmptyTracked(entry: seq<set<Value>>, now: set<Value>)
    ensures BlockTracked(entry, now, []) && Current(now, []) == now
  {
  }

  lemma NewTracking(g: Gen, entry: seq<set<Value>>, sets: seq<set<Value>>)
    requires Tracking(g, entry) && forall k | 0 <= k < |sets| :: LoadsBelow(sets[k], g.next)
    ensures Tracking(NewBlocks(g, |sets|), entry + sets)
  {
    hide Current, LoadsBelow, Tracked;
    TrackedSize(g.blocks, entry);
    NewTracked(g.blocks, entry, sets);
    var r := NewBlocks(g, |sets|);
    forall b | 0 <= b < |r.blocks| ensures LoadsBelow(Current((entry + sets)[b], r.blocks[b]), g.next) {
      if b >= |g.blocks| { EmptyTracked(entry, (entry + sets)[b]); }
    }
  }

  /** Exchanging one match instruction for another changes nothing about loads. */
  lemma {:induction false} CurrentPatch(now: set<Value>, block: Block, k: nat, x: Instr)
    requires k < |block| && block[k].Match? && x.Match?
    ensures Current(now, block[k := x]) == Current(now, block)
    decreases |block|
  {
    var n := |block| - 1;
    if k < n {
      CurrentPatch(now, block[..n], k, x);
      assert block[k := x][..n] == block[..n][k := x];
    } else {
      assert block[k := x][..n] == block[..n];
    }
  }

  lemma BlockTrackedPatch(entry: seq<set<Value>>, now: set<Value>, block: Block, k: nat, x: Instr)
    requires BlockTracked(entry, now, block) && k < |block| && block[k].Match? && x.Match? && x.v == block[k].v
    requires forall t | t in Targets(x) :: t in Targets(block[k]) || (t < |entry| && entry[t] == {})
    ensures BlockTracked(entry, now, block[k := x])
  {
    hide Current;
    var after := block[k := x];
    forall i | 0 <= i < |after| ensures InstrTracked(entry, Current(now, after[..i]), after[i]) {
      assert InstrTracked(entry, Current(now, block[..i]), block[i]);
      if k < i {
        CurrentPatch(now, block[..i], k, x);
        assert after[..i] == block[..i][k := x];
      } else {
        assert after[..i] == block[..i];
      }
    }
  }

  lemma PatchTracking(g: Gen, entry: seq<set<Value>>, o: nat, k: nat, x: Instr)
    requires Tracking(g, entry) && o < |g.blocks| && k < |g.blocks[o]| && g.blocks[o][k].Match? && x.Match?
    requires x.v == g.blocks[o][k].v
    requires forall t | t in Targets(x) :: t in Targets(g.blocks[o][k]) || (t < |entry| && entry[t] == {})
    ensures Tracking(Patch(g, o, k, x), entry)
  {
    hide Current, LoadsBelow, BlockTracked;
    BlockTrackedPatch(entry, entry[o], g.blocks[o], k, x);
    CurrentPatch(entry[o], g.blocks[o], k, x);
  }

  // ---------------------------------------------------------------- stores before their values

  ghost predicate MentionedAt(G: Cfg, v: Value, b: nat, i: nat) {
    b < |G| && i < |G[b]| && v in Operands(G[b][i])
  }

  ghost predicate MentionedBefore(G: Cfg, v: Value, b: nat, i: nat) {
    exists b': nat, i': nat :: MentionedAt(G, v, b', i') && Earlier(b', i', b, i)
  }

  /** Position i of block b stores a value that is not defined before it in the layout. */
  ghost predicate Late(G: Cfg, b: nat, i: nat) {
    b < |G| && i < |G[b]| && G[b][i].Store? && !G[b][i].v.K? && !DefinedBefore(G, G[b][i].v, b, i)
  }

  ghost predicate NotLate(G: Cfg, v: Value) {
    forall b: nat, i: nat | Late(G, b, i) :: G[b][i].v != v
  }

  /** Identities below n; only a variable that was never declared is taken to be cell 0. */
  ghost predicate IdBelow(v: Value, n: nat) {
    IdOf(v) < n || v == Cell(0)
  }

  ghost predicate MentionsBelow(G: Cfg, n: nat) {
    forall v, b, i | MentionedAt(G, v, b, i) && !v.K? :: IdBelow(v, n)
  }

  /** A value that may be stored too early: nothing laid out before that position speaks of it,
      and it is no variable. */
  ghost predicate Quiet(g: Gen, v: Value, b: nat, i: nat) {
    && !MentionedBefore(g.blocks, v, b, i) && IdOf(v) > 0
    && (forall x: Var :: v != Cell(Lookup(g, x)))
  }

  ghost predicate LateQuiet(g: Gen) {
    forall b: nat, i: nat | Late(g.blocks, b, i) :: Quiet(g, g.blocks[b][i].v, b, i)
  }

  ghost predicate Neat(g: Gen) {
    Unique(g.blocks) && DefsBelow(g.blocks, g.next) && MentionsBelow(g.blocks, g.next) && LateQuiet(g)
  }

  lemma LateMentioned(g: Gen, b: nat, i: nat)
    requires Neat(g) && Late(g.blocks, b, i)
    ensures IdOf(g.blocks[b][i].v) < g.next
  {
    assert MentionedAt(g.blocks, g.blocks[b][i].v, b, i);
  }

  lemma EmitMentions(g: Gen, x: Instr, n: nat)
    requires g.Valid() && MentionsBelow(g.blocks, g.next) && g.next <= n
    requires forall v | v in Operands(x) && !v.K? :: IdBelow(v, n)
    ensures MentionsBelow(Emit(g, x).blocks, n)
  {
    var G: Cfg := Emit(g, x).blocks;
    forall v, b, i | MentionedAt(G, v, b, i) && !v.K? ensures IdBelow(v, n) {
      assert MentionedAt(g.blocks, v, b, i) || v in Operands(x);
    }
  }

  lemma LateEmit(g: Gen, x: Instr, b: nat, i: nat)
    requires g.Valid() && Late(Emit(g, x).blocks, b, i)
    ensures Late(g.blocks, b, i) || (b == g.cur && i == |g.blocks[b]| && x.Store? && !x.v.K? && !Avail(g, x.v))
  {
    var G: Cfg := Emit(g, x).blocks;
    UndefinedBefore(g.blocks, G, G[b][i].v, b, i);
  }

  lemma UndefinedBefore(G: Cfg, G': Cfg, v: Value, b: nat, i: nat)
    requires |G| <= |G'| && forall c | 0 <= c < |G| :: G[c] <= G'[c]
    requires !DefinedBefore(G', v, b, i)
    ensures !DefinedBefore(G, v, b, i)
  {
    if DefinedBefore(G, v, b, i) {
      DefinedKept(G, G', v, b, i);
      assert false;
    }
  }

  /** Nothing that is said at the new position changes who spoke before an older one. */
  lemma MentionedEmit(g: Gen, x: Instr, v: Value, b: nat, i: nat)
    requires g.Valid() && MentionedBefore(Emit(g, x).blocks, v, b, i)
    ensures MentionedBefore(g.blocks, v, b, i) || v in Operands(x)
  {
    var G: Cfg := Emit(g, x).blocks;
    var b': nat, i': nat :| MentionedAt(G, v, b', i') && Earlier(b', i', b, i);
    assert MentionedAt(g.blocks, v, b', i') || v in Operands(x);
  }

  lemma LateQuietEmit(g: Gen, x: Instr, r: Gen)
    requires g.Valid() && LateQuiet(g) && r.blocks == Emit(g, x).blocks && r.scope == g.scope
    requires forall v | v in Operands(x) && !v.K? :: NotLate(g.blocks, v)
    requires x.Store? ==> x.v.K? || Avail(g, x.v) || (Quiet(g, x.v, g.cur, |g.blocks[g.cur]|) && x.v != Cell(x.x))
    ensures LateQuiet(r)
  {
    hide DefinedBefore, MentionedBefore;
    forall b: nat, i: nat | Late(r.blocks, b, i) ensures Quiet(r, r.blocks[b][i].v, b, i) {
      LateEmit(g, x, b, i);
      var v := r.blocks[b][i].v;
      assert forall y :: Lookup(r, y) == Lookup(g, y);
      if MentionedBefore(r.blocks, v, b, i) && Late(g.blocks, b, i) {
        MentionedEmit(g, x, v, b, i);
      } else if MentionedBefore(r.blocks, v, b, i) {
        MentionedHere(g, x, v);
      }
    }
  }

  lemma MentionedHere(g: Gen, x: Instr, v: Value)
    requires g.Valid() && MentionedBefore(Emit(g, x).blocks, v, g.cur, |g.blocks[g.cur]|)
    ensures MentionedBefore(g.blocks, v, g.cur, |g.blocks[g.cur]|)
  {
    var b': nat, i': nat :| MentionedAt(Emit(g, x).blocks, v, b', i') && Earlier(b', i', g.cur, |g.blocks[g.cur]|);
    assert MentionedAt(g.blocks, v, b', i');
  }

  /** An instruction may be appended: its operands are known and no store waits for them. */
  ghost predicate Appendable(g: Gen, x: Instr, n: nat)
    requires g.Valid()
  {
    && (forall v | v in Operands(x) && !v.K? :: NotLate(g.blocks, v) && IdBelow(v, n))
    && (x.Store? ==> x.v.K? || Avail(g, x.v) || (Quiet(g, x.v, g.cur, |g.blocks[g.cur]|) && x.v != Cell(x.x)))
    && (DefOf(x).Some? ==> IdOf(DefOf(x).value) == g.next < n)
  }

  lemma EmitNeat(g: Gen, x: Instr, n: nat)
    requires g.Valid() && Neat(g) && g.next <= n && Appendable(g, x, n)
    ensures Neat(Emit(g, x).(next := n))
  {
    hide Unique, DefsBelow, MentionsBelow, LateQuiet, NotLate, Avail, Quiet, IdBelow;
    UniqueEmit(g, x, n);
    EmitMentions(g, x, n);
    LateQuietEmit(g, x, Emit(g, x).(next := n));
  }

  /** Changes to the blocks after which every position says and defines what it did before. */
  ghost predicate SameSaid(G: Cfg, G': Cfg) {
    && (forall v, b, i :: DefinedAt(G', v, b, i) <==> DefinedAt(G, v, b, i))
    && (forall v, b, i :: MentionedAt(G', v, b, i) <==> MentionedAt(G, v, b, i))
    && (forall b: nat, i: nat | b < |G'| && i < |G'[b]| && G'[b][i].Store? ::
          b < |G| && i < |G[b]| && G[b][i] == G'[b][i])
  }

  lemma SaidLate(G: Cfg, G': Cfg, b: nat, i: nat)
    requires SameSaid(G, G') && Late(G', b, i)
    ensures Late(G, b, i) && G[b][i].v == G'[b][i].v
  {
    var v := G'[b][i].v;
    if DefinedBefore(G, v, b, i) {
      SaidDefined(G, G', v, b, i);
      assert false;
    }
  }

  lemma SaidDefined(G: Cfg, G': Cfg, v: Value, b: nat, i: nat)
    requires SameSaid(G, G') && DefinedBefore(G, v, b, i)
    ensures DefinedBefore(G', v, b, i)
  {
    var b': nat, i': nat :| DefinedAt(G, v, b', i') && Earlier(b', i', b, i);
    assert DefinedAt(G', v, b', i');
  }

  lemma SaidBefore(G: Cfg, G': Cfg, v: Value, b: nat, i: nat)
    requires SameSaid(G, G') && MentionedBefore(G', v, b, i)
    ensures MentionedBefore(G, v, b, i)
  {
    var b': nat, i': nat :| MentionedAt(G', v, b', i') && Earlier(b', i', b, i);
    assert MentionedAt(G, v, b', i');
  }

  lemma SaidNeat(g: Gen, r: Gen)
    requires Neat(g) && SameSaid(g.blocks, r.blocks) && r.scope == g.scope && g.next <= r.next
    ensures Neat(r)
    ensures forall v :: NotLate(g.blocks, v) ==> NotLate(r.blocks, v)
  {
    hide DefinedBefore, MentionedBefore, SameSaid, DefinedAt;
    forall b: nat, i: nat | Late(r.blocks, b, i) ensures Late(g.blocks, b, i) && g.blocks[b][i].v == r.blocks[b][i].v {
      SaidLate(g.blocks, r.blocks, b, i);
    }
    forall b: nat, i: nat | Late(r.blocks, b, i) ensures Quiet(r, r.blocks[b][i].v, b, i) {
      var v := r.blocks[b][i].v;
      assert Quiet(g, v, b, i) && forall y :: Lookup(r, y) == Lookup(g, y);
      if MentionedBefore(r.blocks, v, b, i) { SaidBefore(g.blocks, r.blocks, v, b, i); }
    }
    SaidBounds(g, r);
  }

  lemma SaidBounds(g: Gen, r: Gen)
    requires Neat(g) && SameSaid(g.blocks, r.blocks) && g.next <= r.next
    ensures Unique(r.blocks) && DefsBelow(r.blocks, r.next) && MentionsBelow(r.blocks, r.next)
  {
    hide LateQuiet;
  }

  lemma NewSaid(g: Gen, n: nat)
    ensures SameSaid(g.blocks, NewBlocks(g, n).blocks)
  {
  }

  lemma PatchSaid(g: Gen, o: nat, k: nat, x: Instr)
    requires o < |g.blocks| && k < |g.blocks[o]| && g.blocks[o][k].Match? && x.Match? && x.v == g.blocks[o][k].v
    ensures SameSaid(g.blocks, Patch(g, o, k, x).blocks)
  {
  }

  // ---------------------------------------------------------------- both together

  ghost predicate Tidy(g: Gen, entry: seq<set<Value>>) {
    g.Valid() && Tracking(g, entry) && Neat(g)
  }

  /** Operand v may be used at the insert point. */
  ghost predicate Usable(g: Gen, entry: seq<set<Value>>, v: Value)
    requires g.Valid() && |g.blocks| == |entry|
  {
    v.K? || (Avail(g, v) && NotLate(g.blocks, v) && IdOf(v) < g.next && (v.Loaded? ==> v in Now(g, entry)))
  }

  /** What lowering an expression keeps: loads stay up to date, and no store waits for an older value. */
  ghost predicate Keeps(g: Gen, entry: seq<set<Value>>, r: Gen, entry': seq<set<Value>>) {
    && Tidy(g, entry) && Tidy(r, entry') && entry <= entry' && g.next <= r.next
    && Now(g, entry) <= Now(r, entry')
    && (forall v | NotLate(g.blocks, v) && IdOf(v) < g.next :: NotLate(r.blocks, v))
  }

  lemma KeepsTrans(g: Gen, e: seq<set<Value>>, g1: Gen, e1: seq<set<Value>>, g2: Gen, e2: seq<set<Value>>)
    requires Keeps(g, e, g1, e1) && Keeps(g1, e1, g2, e2)
    ensures Keeps(g, e, g2, e2)
  {
    hide Tidy, NotLate, Now;
    assert |e| == |g.blocks| && g.cur < |g.blocks| by { TidySize(g, e); }
    assert |e1| == |g1.blocks| && g1.cur < |g1.blocks| by { TidySize(g1, e1); }
    assert |e2| == |g2.blocks| && g2.cur < |g2.blocks| by { TidySize(g2, e2); }
  }

  lemma TidySize(g: Gen, entry: seq<set<Value>>)
    requires Tidy(g, entry)
    ensures g.Valid() && g.cur < |g.blocks| == |entry|
  {
  }

  lemma UsableKept(g: Gen, e: seq<set<Value>>, r: Gen, e': seq<set<Value>>, v: Value)
    requires Grows(g, r) && Keeps(g, e, r, e') && Usable(g, e, v)
    ensures Usable(r, e', v)
  {
    hide Neat, Tracking, NotLate, Now, Avail;
    if !v.K? { AvailKept(g, r, v); }
  }

  /** Appending an instruction whose operands may be used. */
  lemma EmitTidy(g: Gen, entry: seq<set<Value>>, x: Instr, n: nat)
    requires Tidy(g, entry) && g.next <= n && Appendable(g, x, n)
    requires InstrTracked(entry, Now(g, entry), x) && (x.Load? ==> x.x < n)
    ensures Tidy(Emit(g, x).(next := n), entry) && Now(Emit(g, x), entry) == After(Now(g, entry), x)
  {
    hide Neat, Tracking, Appendable, InstrTracked, Now;
    EmitNeat(g, x, n);
    EmitTracking(g, entry, x, n);
  }

  /** What cannot become late by appending x. */
  lemma EmitNotLate(g: Gen, x: Instr, v: Value)
    requires g.Valid() && NotLate(g.blocks, v) && (x.Store? ==> x.v.K? || Avail(g, x.v) || x.v != v)
    ensures NotLate(Emit(g, x).blocks, v)
  {
    var G: Cfg := Emit(g, x).blocks;
    forall b: nat, i: nat | Late(G, b, i) ensures G[b][i].v != v { LateEmit(g, x, b, i); }
  }

  lemma MoveTidy(g: Gen, entry: seq<set<Value>>, b: nat)
    requires Tidy(g, entry) && b < |g.blocks|
    ensures Tidy(MoveTo(g, b), entry)
  {
    assert Neat(MoveTo(g, b)) by { SaidSelf(g.blocks); SaidNeat(g, MoveTo(g, b)); }
  }

  lemma SaidSelf(G: Cfg)
    ensures SameSaid(G, G)
  {
  }

  lemma NewTidy(g: Gen, entry: seq<set<Value>>, sets: seq<set<Value>>)
    requires Tidy(g, entry) && forall k | 0 <= k < |sets| :: LoadsBelow(sets[k], g.next)
    ensures Tidy(NewBlocks(g, |sets|), entry + sets)
  {
    hide Neat, Tracking;
    NewSaid(g, |sets|);
    SaidNeat(g, NewBlocks(g, |sets|));
    NewTracking(g, entry, sets);
  }

  lemma PatchTidy(g: Gen, entry: seq<set<Value>>, o: nat, k: nat, x: Instr)
    requires Tidy(g, entry) && o < |g.blocks| && k < |g.blocks[o]| && g.blocks[o][k].Match? && x.Match?
    requires x.v == g.blocks[o][k].v
    requires forall t | t in Targets(x) :: t in Targets(g.blocks[o][k]) || (t < |entry| && entry[t] == {})
    ensures Tidy(Patch(g, o, k, x), entry)
  {
    hide Neat, Tracking;
    PatchSaid(g, o, k, x);
    SaidNeat(g, Patch(g, o, k, x));
    PatchTracking(g, entry, o, k, x);
  }
}

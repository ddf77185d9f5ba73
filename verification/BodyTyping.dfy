/** Which bodies are accepted, in terms of types alone, and in which of them a local is stored in dead code. */
module BodyTyping {
  import opened Syntax
  import opened Graph
  import opened Ssa
  import opened SsaInvariant
  import opened SsaRun
  import opened FunctionMeaning
  import opened Leb128
  import opened Opcodes
  import opened Lr
  import opened LrParse
  import opened LrSsa
  import opened CutOff
  import opened Typing
  import opened DecodeFunction

  /** A function is entered alive, outside of every block. */
  const ENTRY: Flow := Flow(true, [], false)

  function TreesFlow(d: Decl, f: Forest): Verdicts
    requires !d.ret.End?
  {
    JudgeKids(EnvOf(d), BodyOf(f.trees), 0, ENTRY)
  }

  /** The flow where the code of a body ends. */
  function BodyFlow(d: Decl, f: Forest): Reach
    requires !d.ret.End?
  {
    match TreesFlow(d, f)
    case IllKids(b) => NoReach(b)
    case WellKids(f1, _) => SinkAll(EnvOf(d), f.spine.opens, f1)
  }

  /** The trees are well typed; control that falls out of the body does so after a whole tree, which has the
      type the function returns. */
  predicate BodyTyped(d: Decl, f: Forest)
    requires !d.ret.End?
  {
    && !f.spine.torn && BodyFlow(d, f).Reach? && (d.ret.Stmt? || f.trees != [])
    && (BodyFlow(d, f).f.live ==>
          f.spine.opens == [] && (d.ret.Stmt? || TreesFlow(d, f).tys[|f.trees| - 1] == d.ret))
  }

  /** On the way to where a body fails or ends a local is stored in dead code. */
  predicate StoresDead(d: Decl, f: Forest)
    requires !d.ret.End?
  {
    match BodyFlow(d, f)
    case NoReach(b) => b
    case Reach(f1) => f1.stray
  }

  lemma EntryLive(d: Decl)
    requires !d.ret.End?
    ensures LiveInv(EnvOf(d), InitSt(d)) && Fits(InitSt(d), ENTRY)
  {
    hide InitGraph;
    InitLive(d);
  }

  /** The construction ends where the rules say, and the types of the trees are those the rules give. */
  lemma BodyAgrees(d: Decl, f: Forest)
    requires !d.ret.End? && forall i :: 0 <= i < |f.spine.opens| ==> Unfinished(EnvOf(d), f.spine.opens[i])
    ensures DownAgrees(EnvOf(d), BodyEnd(d, f), BodyFlow(d, f))
    ensures KidsAgree(RunKids(EnvOf(d), BodyOf(f.trees), 0, InitSt(d)), TreesFlow(d, f))
  {
    hide InitSt, RunKids, JudgeKids, LiveInv, Fits;
    EntryLive(d);
    var fe, t := EnvOf(d), BodyOf(f.trees);
    KidsJudge(fe, t, 0, InitSt(d), ENTRY);
    var k := RunKids(fe, t, 0, InitSt(d));
    if k.KOk? {
      KidsLive(fe, t, InitSt(d));
      SinkAllDescends(fe, f.spine.opens, k.s, TreesFlow(d, f).f);
    }
  }

  lemma OkIffTyped(d: Decl, f: Forest)
    requires !d.ret.End? && forall i :: 0 <= i < |f.spine.opens| ==> Unfinished(EnvOf(d), f.spine.opens[i])
    ensures BodyOk(d, f) <==> BodyTyped(d, f)
  {
    hide InitSt, RunKids, JudgeKids, DescendAll, SinkAll, Inv;
    BodyAgrees(d, f);
    var fe, k := EnvOf(d), RunKids(EnvOf(d), BodyOf(f.trees), 0, InitSt(d));
    if k.KOk? && f.spine.opens == [] {
      NoOpens(fe, k.s, TreesFlow(d, f).f);
      if k.s.cur.Go() { LiveSlots(fe, k.s); }
      if f.trees == [] { NoTrees(d); }
    }
  }

  lemma NoOpens(fe: FunEnv, v: St, f: Flow)
    ensures DescendAll(fe, [], v) == Down(v) && SinkAll(fe, [], f) == Reach(f)
  {
  }

  lemma LiveSlots(fe: FunEnv, v: St)
    requires v.cur.Go() && LiveInv(fe, v)
    ensures |v.cur.slots| > 0
  {
  }

  lemma NoTrees(d: Decl)
    requires !d.ret.End?
    ensures JudgeKids(EnvOf(d), BodyOf([]), 0, ENTRY) == WellKids(ENTRY, [])
  {
  }

  /** The trees on the spine of a parse are unfinished. */
  lemma SpineOpen(menv: ModuleEnv, fe: FunEnv, code: seq<byte>)
    ensures var opens := ParseForest(menv, fe, code).spine.opens;
      forall i :: 0 <= i < |opens| ==> Unfinished(fe, opens[i])
  {
    hide Unfinished, ParseSpine, ParseKids;
    BodyIsKids(menv, fe, code, 0);
    SpineUnfinished(menv, fe, code, ParseKids(menv, fe, code, 0).1);
  }

  /** Exactly the well-typed bodies are accepted. */
  lemma AcceptedIffTyped(menv: ModuleEnv, d: Decl, code: seq<byte>)
    requires !d.ret.End?
    ensures Decode(menv, d, code).Accepted? <==> BodyTyped(d, ParseForest(menv, EnvOf(d), code))
  {
    hide Decode, BodyOk, BodyTyped, ParseForest, Unfinished;
    AcceptedIff(menv, d, code);
    SpineOpen(menv, EnvOf(d), code);
    OkIffTyped(d, ParseForest(menv, EnvOf(d), code));
  }

  /** The decoder stores a local where there is no array of locals exactly when the trees do so in dead code. */
  lemma StraysIff(menv: ModuleEnv, d: Decl, code: seq<byte>)
    requires !d.ret.End?
    ensures Strays(menv, d, code) <==> StoresDead(d, ParseForest(menv, EnvOf(d), code))
  {
    hide DecodeFrom, InitState, BodyEnd, BodyFlow, ParseForest, LiveInv, Distinct;
    var f := ParseForest(menv, EnvOf(d), code);
    SpineOpen(menv, EnvOf(d), code);
    DecodeEnds(menv, d, code);
    BodyAgrees(d, f);
    var r := DecodeFrom(menv, EnvOf(d), code, 0, InitState(d));
    if r.Next? { SameStray(r.s, BodyEnd(d, f).v); }
  }

  /** In every accepted body each operand that control comes out of has exactly the type its consumer wants. */
  lemma OperandsExact(menv: ModuleEnv, d: Decl, code: seq<byte>)
    requires !d.ret.End? && Decode(menv, d, code).Accepted?
    ensures var f := ParseForest(menv, EnvOf(d), code);
      && TreesFlow(d, f).WellKids? && KidsExact(EnvOf(d), BodyOf(f.trees), 0, ENTRY)
      && OpensExact(EnvOf(d), f.spine.opens, TreesFlow(d, f).f)
  {
    hide Decode, JudgeKids, Unfinished, NoEnds, SinkAll, KidsExact, ParseSpine;
    AcceptedIffTyped(menv, d, code);
    var fe, f := EnvOf(d), ParseForest(menv, EnvOf(d), code);
    KidsSunkExact(fe, BodyOf(f.trees), ENTRY);
    SpineOpen(menv, fe, code);
    SinkAllExact(fe, f.spine.opens, TreesFlow(d, f).f);
  }

  // ----- A body that is accepted without being a sequence of whole trees -----

  const TORN_OFF: seq<byte> := [0x01, 0x02, 0x15]

  /** A block of two trees cut off after an unreachable first tree is accepted. */
  lemma CutOffAccepted(menv: ModuleEnv, d: Decl)
    requires d.ret.Stmt?
    ensures Decode(menv, d, TORN_OFF).Accepted? && ParseBody(menv, EnvOf(d), TORN_OFF, 0).NoParses?
  {
    hide Decode;
    CutOffParses(menv, EnvOf(d));
    CutOffFlow(d);
    AcceptedIffTyped(menv, d, TORN_OFF);
  }

  function CutOffOpen(): Open {
    Open(Block(2), 0, 2, [Syn(Unreachable, 2, 1, [])])
  }

  lemma CutOffBytes(menv: ModuleEnv)
    ensures Fetch(menv, TORN_OFF, 0) == Got(Block(2), 2) && Fetch(menv, TORN_OFF, 2) == Got(Unreachable, 1)
  {
  }

  lemma CutOffParses(menv: ModuleEnv, fe: FunEnv)
    ensures ParseForest(menv, fe, TORN_OFF) == Forest([], Spine([CutOffOpen()], false))
    ensures ParseBody(menv, fe, TORN_OFF, 0).NoParses?
  {
    hide Fetch;
    CutOffBytes(menv);
    var t := CutOffOpen().kids[0];
    assert ParseMany(menv, fe, TORN_OFF, 3, 0) == ParsedAll([], 3);
    assert Parse(menv, fe, TORN_OFF, 2) == Parsed(t, 3);
    AtEnd(menv, fe, TORN_OFF);
    assert ParseMany(menv, fe, TORN_OFF, 3, 1) == NoParses;
    assert ParseMany(menv, fe, TORN_OFF, 2, 2) == NoParses;
    assert Parse(menv, fe, TORN_OFF, 0) == NoParse;
    assert ParseKids(menv, fe, TORN_OFF, 3) == ([], 3);
    assert [t] + [] == [t] && [CutOffOpen()] + [] == [CutOffOpen()];
    assert ParseKids(menv, fe, TORN_OFF, 2) == ([t], 3);
    assert ParseSpine(menv, fe, TORN_OFF, 3) == Spine([], false);
    assert ParseSpine(menv, fe, TORN_OFF, 0) == Spine([CutOffOpen()], false);
  }

  lemma CutOffFlow(d: Decl)
    requires d.ret.Stmt?
    ensures BodyTyped(d, Forest([], Spine([CutOffOpen()], false)))
  {
    var fe, o := EnvOf(d), CutOffOpen();
    var t, f := SynOfOpen(o), Flow(true, [[]], false);
    NoTrees(d);
    assert [] + [[]] == ENTRY.arrived + [[]];
    assert JudgeKids(fe, t, 1, f.(live := false)) == WellKids(f.(live := false), []);
    assert JudgeKids(fe, t, 0, f) == WellKids(f.(live := false), [End]);
    assert Sink(fe, o, ENTRY) == Reach(f.(live := false));
    assert SinkAll(fe, [], f.(live := false)) == Reach(f.(live := false)) && [o][1..] == [];
    assert SinkAll(fe, [o], ENTRY) == Reach(f.(live := false));
  }

  // ----- A body that is accepted and stores in dead code -----

  const LOST: seq<byte> := [0x15, 0x0f, 0x00, 0x0a, 0, 0, 0, 0]

  function LostTrees(): seq<Syn> {
    [Syn(Unreachable, 0, 1, []), Syn(SetLocal(0), 1, 2, [Syn(Const(I32, 0), 3, 5, [])])]
  }

  lemma LostBytes(menv: ModuleEnv)
    ensures Fetch(menv, LOST, 0) == Got(Unreachable, 1) && Fetch(menv, LOST, 1) == Got(SetLocal(0), 2)
    ensures Fetch(menv, LOST, 3) == Got(Const(I32, 0), 5)
  {
    LostWord();
    LostIndex();
  }

  lemma LostWord()
    ensures LittleEndian(LOST, 4, 4) == 0
  {
    assert LittleEndian(LOST, 8, 0) == 0;
    assert LittleEndian(LOST, 7, 1) == 0;
    assert LittleEndian(LOST, 6, 2) == 0;
    assert LittleEndian(LOST, 5, 3) == 0;
  }

  lemma LostIndex()
    ensures IndexOperand(LOST, 1).status.NoError? && IndexOperand(LOST, 1).value == 0
    ensures IndexOperand(LOST, 1).length == 1
  {
  }

  lemma LostParses(menv: ModuleEnv, fe: FunEnv)
    ensures ParseForest(menv, fe, LOST) == Forest(LostTrees(), Spine([], false))
  {
    hide Fetch;
    LostBytes(menv);
    var ts := LostTrees();
    assert ParseMany(menv, fe, LOST, 1, 0) == ParsedAll([], 1);
    assert Parse(menv, fe, LOST, 0) == Parsed(ts[0], 1);
    assert ParseMany(menv, fe, LOST, 8, 0) == ParsedAll([], 8);
    assert Parse(menv, fe, LOST, 3) == Parsed(ts[1].kids[0], 8);
    assert ParseMany(menv, fe, LOST, 3, 1) == ParsedAll([ts[1].kids[0]], 8);
    assert Parse(menv, fe, LOST, 1) == Parsed(ts[1], 8);
    AtEnd(menv, fe, LOST);
    assert ParseKids(menv, fe, LOST, 8) == ([], 8);
    assert [ts[1]] + [] == [ts[1]] && [ts[0]] + [ts[1]] == ts;
    assert ParseKids(menv, fe, LOST, 1) == ([ts[1]], 8);
    assert ParseKids(menv, fe, LOST, 0) == (ts, 8);
  }

  lemma LostFlow(d: Decl)
    requires d == Decl([], 1, 0, 0, 0, Stmt)
    ensures BodyFlow(d, Forest(LostTrees(), Spine([], false))) == Reach(Flow(false, [], true))
  {
    var fe, ts := EnvOf(d), LostTrees();
    assert fe.locals == [I32];
    var dead, t := ENTRY.(live := false), ts[1];
    var b := BodyOf(ts);
    assert Judge(fe, ts[0], ENTRY) == Well(dead, End);
    assert Judge(fe, t.kids[0], dead) == Well(dead, I32);
    assert JudgeKids(fe, t, 1, dead) == WellKids(dead, []);
    assert JudgeKids(fe, t, 0, dead) == WellKids(dead, [I32]);
    var lost := dead.(stray := true);
    assert Judge(fe, t, dead) == Well(lost, I32);
    assert JudgeKids(fe, b, 2, lost) == WellKids(lost, []);
    assert JudgeKids(fe, b, 1, dead) == WellKids(lost, [I32]);
    assert JudgeKids(fe, b, 0, ENTRY) == WellKids(lost, [End, I32]);
  }

  /** Unreachable code that assigns a local is accepted, and the store has nowhere to go. */
  lemma DeadStore(menv: ModuleEnv, d: Decl)
    requires d == Decl([], 1, 0, 0, 0, Stmt)
    ensures Decode(menv, d, LOST).Accepted? && BuildMode(menv, d, LOST) == Crashed
  {
    LostParses(menv, EnvOf(d));
    LostFlow(d);
    AcceptedIffTyped(menv, d, LOST);
    StraysIff(menv, d, LOST);
  }
}

/** The phases one after the other, and what each of them may rely on. */
module Pipeline {
  import opened Tree
  import opened Additions
  import opened Asterisks
  import opened Functions
  import opened References
  import opened Everything
  import opened Callless
  import opened Parser
  import opened Phase3
  import opened Phase5
  import opened Results
  import Stability
  import ParserMachine

  /** The tree `o` is where the loop of phase 2 ends when it starts at `m`. */
  ghost predicate Phase2Ends(ks: seq<PassKind>, fm: FunctionMap, m: Members, o: Members) {
    && (exists n: nat :: Rounds(ks, fm, m, n) == Ok(o))
    && (forall k | k in ks :: RunPass(k, fm, o) == Ok(o))
  }

  /**
   What the last phase asserts is true: once phase 2 has ended and phase 3 has not complained,
   every concat at every depth has one part, which is plain data.
   */
  lemma Phase5NeverFails(ks: seq<PassKind>, fm: FunctionMap, m: Members, o: Members)
    requires AddUp in ks && Phase2Ends(ks, fm, m, o) && FindEntry(Object(o)) == Fine
    ensures PlainEntry(StripEntry(Object(o)))
  {
    hide FindEntry, PlainEntry, StripEntry, PassEntry, SoundEntry;
    EntryFound(Object(o));
    assert RunPass(AddUp, fm, o) == Ok(o);
    ObjectsStay(fm, o);
    Phase3LeavesPlainEntry(Object(o));
  }

  // ---- Finished trees go through unchanged ---------------------------------------------------

  lemma {:induction false} PrimitiveIsSound(c: Concat)
    requires Primitive(c)
    ensures Sound(c)
  {
    hide PrimitiveEntry, SoundEntry;
    forall i | 0 <= i < |c.parts| ensures SoundEntry(c.parts[i]) { PrimitiveIsSoundEntry(c.parts[i]); }
  }

  lemma {:induction false} PrimitiveIsSoundEntry(e: Entry)
    requires PrimitiveEntry(e)
    ensures SoundEntry(e)
  {
    hide Primitive, Sound;
    match e {
      case Array(_, es) => forall i | 0 <= i < |es| ensures Sound(es[i]) { PrimitiveIsSound(es[i]); }
      case Object(m) => forall n | n in m ensures Sound(m[n]) { PrimitiveIsSound(m[n]); }
      case _ =>
    }
  }

  lemma PrimitiveRootHasNoSites(m: Members)
    requires PrimitiveEntry(Object(m))
    ensures ReferencesPass(Root(m)) == Ok(Root(m))
  {
    hide SitesOf, Live, PrimitiveEntry;
    assert Primitive(Root(m)) by { assert Root(m).parts == [Object(m)]; }
    SitesAreTheReferences(Root(m));
    forall s ensures !Live(Root(m), s) { Stability.PrimitiveHasNoReference(Root(m), s); }
    SomethingIsListed(SitesOf(Root(m)));
  }

  lemma SomethingIsListed(sites: seq<Site>)
    ensures sites == [] || exists s :: s in sites
  {
    if sites != [] { assert sites[0] in sites; }
  }

  lemma PassesKeepPrimitive(k: PassKind, fm: FunctionMap, m: Members)
    requires PrimitiveEntry(Object(m))
    ensures RunPass(k, fm, m) == Ok(m)
  {
    hide PrimitiveEntry, FreeEntry, CallEntry, PassEntry, SoundEntry, ExpandBelow, ReferencesPass;
    match k {
      case CallFunctions =>
        PrimitiveEntryIsFree(Invocation, Object(m));
        CallsOfFreeEntry(fm, Object(m));
      case AddUp =>
        PrimitiveIsSoundEntry(Object(m));
        Stability.PassOfPrimitiveEntry(Object(m));
      case CopyTargets => PrimitiveRootHasNoSites(m);
      case ExpandStars => Stability.ExpandOfPrimitiveEntry(Object(m));
    }
  }

  lemma {:induction false} RoundsKeepPrimitive(ks: seq<PassKind>, fm: FunctionMap, m: Members, n: nat)
    requires PrimitiveEntry(Object(m))
    ensures RunPasses(ks, fm, m) == Ok(m) && Rounds(ks, fm, m, n) == Ok(m)
    decreases n, |ks|
  {
    hide PrimitiveEntry, RunPass;
    if ks != [] {
      PassesKeepPrimitive(ks[0], fm, m);
      PassesOnPrimitive(ks, fm, m);
    }
    if n > 0 { RoundsKeepPrimitive(ks, fm, m, n - 1); }
  }

  lemma {:induction false} PassesOnPrimitive(ks: seq<PassKind>, fm: FunctionMap, m: Members)
    requires PrimitiveEntry(Object(m))
    ensures RunPasses(ks, fm, m) == Ok(m)
    decreases |ks|
  {
    hide PrimitiveEntry, RunPass;
    if ks != [] {
      PassesKeepPrimitive(ks[0], fm, m);
      PassesOnPrimitive(ks[1..], fm, m);
    }
  }

  // ---- The evaluator -------------------------------------------------------------------------

  /** Phase 2 ends with the tree `o`, and `r` is what phases 3 and 5 make of it. */
  ghost predicate EndsWith(ks: seq<PassKind>, fm: FunctionMap, m: Members, o: Members, r: Result<Annotated>) {
    && Phase2Ends(ks, fm, m, o)
    && if r.Ok? then
         FindEntry(Object(o)) == Fine && PlainEntry(StripEntry(Object(o))) && r.value == RepackEntry([], StripEntry(Object(o)))
       else
         FindEntry(Object(o)) == Problem(r.error)
  }

  /** What an evaluation that starts with the tree `m` may come to. */
  ghost predicate ComesTo(ks: seq<PassKind>, fm: FunctionMap, m: Members, r: Result<Annotated>) {
    || (r.Err? && exists n: nat :: Rounds(ks, fm, m, n) == Err(r.error))
    || exists o :: EndsWith(ks, fm, m, o, r)
  }

  /** From a syntax tree to the result. */
  class ConfigParser {
    var machine: ParserMachine.Machine

    constructor ()
      ensures fresh(machine) && machine.prefix == [] && machine.suffix == [] && machine.Current() == State(map[], 1)
    {
      machine := new ParserMachine.Machine();
    }

    method Parse(ms: seq<MemberDef>) returns (r: Result<()>)
      requires machine.prefix == [] && machine.suffix == []
      requires forall i | 0 <= i < |ms| :: ProperMember(ms[i])
      modifies machine
      ensures machine.prefix == [] && machine.suffix == []
      ensures ExecMembers(old(machine.Current()), [], ms) == if r.Ok? then Ok(machine.Current()) else Err(r.error)
    {
      hide ExecMembers;
      assert machine.prefix + machine.suffix == [];
      r := machine.ParseMembers(ms);
    }

    /** Phases 2, 3 and 5; an assertion of phase 5 never fails. */
    method Finish(ks: seq<PassKind>, fm: FunctionMap) returns (r: Result<Annotated>, ghost o: Members)
      requires ValidFunctions(fm) && AddUp in ks
      modifies machine`root
      ensures ComesTo(ks, fm, old(machine.root), r)
      ensures r.Ok? ==> EndsWith(ks, fm, old(machine.root), o, r) && Reports(o, r.value)
    {
      hide Rounds, RunPass, PlainEntry, StripEntry, FindEntry, RepackEntry, ValidFunctions, Reports;
      o := map[];
      var p := Phase2Everything(ks, fm, machine.root);
      ghost var n :| p == Rounds(ks, fm, machine.root, n);
      if p.Err? {
        assert Rounds(ks, fm, old(machine.root), n) == Err(p.error);
        return Err(p.error), o;
      }
      machine.root, o := p.value, p.value;
      assert Phase2Ends(ks, fm, old(machine.root), o) by { assert Rounds(ks, fm, old(machine.root), n) == Ok(o); }
      var d := RemoveEntry(Object(machine.root));
      assert d == Result3(FindEntry(Object(o)), StripEntry(Object(o)));
      if d.Err? {
        r := Err(d.error);
        assert EndsWith(ks, fm, old(machine.root), o, r);
        return;
      }
      Phase5NeverFails(ks, fm, old(machine.root), o);
      StrippedObject(o);
      machine.root := d.value.members;
      var consumer := new Consumer();
      var e := consumer.RepackPart([], Object(machine.root));
      ResultReports(o);
      r := Ok(consumer.value);
      assert EndsWith(ks, fm, old(machine.root), o, r);
    }
  }

  lemma StrippedObject(m: Members)
    ensures StripEntry(Object(m)).Object?
  {
  }
}

/** What the functions pass makes of a call, and what `default` returns. */
module Invocations {
  import opened Tree
  import opened Names
  import opened Functions
  import opened Callless
  import Calls

  // ---- The function `default` ----------------------------------------------------------------

  /** The first arguments are all `null`. */
  predicate NullsBefore(args: seq<Concat>, i: nat)
    requires i <= |args|
  {
    forall j | 0 <= j < i :: args[j].parts == [Null]
  }

  /** Exactly one summand, which is no call, reference or asterisk. */
  predicate Ready(c: Concat) {
    |c.parts| == 1 && !c.parts[0].Asterisk? && !c.parts[0].Reference? && !IsFunction(c.parts[0])
  }

  /**
   The first argument that is not `null` decides: it is the result if it is ready, and otherwise
   the call has to wait, whatever comes later.  Without such an argument there is an error.
   */
  lemma {:induction false} DefaultIsFirst(args: seq<Concat>)
    ensures NullsBefore(args, |args|) ==> DefaultCall(args) == Fails(BadArguments)
    ensures forall i | 0 <= i < |args| && NullsBefore(args, i) && args[i].parts != [Null] ::
      DefaultCall(args) == if Ready(args[i]) then Value(args[i].parts[0]) else NotYet
  {
    if args != [] {
      var rest := args[1..];
      DefaultIsFirst(rest);
      assert forall i | 0 <= i < |rest| :: rest[i] == args[i + 1];
      forall i | 0 <= i < |args| && NullsBefore(args, i) && args[i].parts != [Null]
        ensures DefaultCall(args) == if Ready(args[i]) then Value(args[i].parts[0]) else NotYet
      {
        if i > 0 {
          assert args[0].parts == [Null];
          assert NullsBefore(rest, i - 1) && rest[i - 1] == args[i];
        } else if |args[0].parts| == 1 {
          assert args[0].parts == [args[0].parts[0]];
        }
      }
      if NullsBefore(args, |args|) { assert args[0].parts == [Null] && NullsBefore(rest, |rest|); }
    }
  }

  // ---- The pass ------------------------------------------------------------------------------

  /** The calls below a summand, one child at a time. */
  lemma CallsBelow(fm: FunctionMap, e: Entry)
    requires CallEntry(fm, e).Ok?
    ensures e.Object? ==>
      && CallEntry(fm, e).value.Object? && CallEntry(fm, e).value.members.Keys == e.members.Keys
      && forall n | n in e.members :: CallAll(fm, e.members[n]) == Ok(CallEntry(fm, e).value.members[n])
    ensures e.Array? && e.call == "" ==>
      && CallEntry(fm, e).value.Array? && CallEntry(fm, e).value.call == "" && |CallEntry(fm, e).value.elements| == |e.elements|
      && forall i | 0 <= i < |e.elements| :: CallAll(fm, e.elements[i]) == Ok(CallEntry(fm, e).value.elements[i])
    ensures !e.Object? && !e.Array? ==> CallEntry(fm, e) == Ok(e)
  {
    hide CallAll, CallElements, CallMembers, Invoke, Lists;
    match e {
      case Object(m) =>
        NamesListed(m.Keys);
        MembersCalled(fm, e, Sorted(m.Keys));
      case Array(f, es) => ElementsCalled(fm, e, 0);
      case _ =>
    }
  }

  lemma {:induction false} MembersCalled(fm: FunctionMap, e: Entry, names: seq<string>)
    requires e.Object? && (forall n | n in names :: n in e.members) && CallMembers(fm, e, names).Ok?
    ensures forall n | n in names :: CallAll(fm, e.members[n]) == Ok(CallMembers(fm, e, names).value[n])
    decreases |names|
  {
    hide CallAll;
    if names != [] { MembersCalled(fm, e, names[1..]); }
  }

  lemma {:induction false} ElementsCalled(fm: FunctionMap, e: Entry, j: nat)
    requires e.Array? && j <= |e.elements| && CallElements(fm, e, j).Ok?
    ensures forall i | j <= i < |e.elements| :: CallAll(fm, e.elements[i]) == Ok(CallElements(fm, e, j).value[i - j])
    decreases |e.elements| - j
  {
    hide CallAll;
    if j < |e.elements| {
      ElementsCalled(fm, e, j + 1);
      var v, w := CallElements(fm, e, j).value, CallElements(fm, e, j + 1).value;
      forall i | j <= i < |e.elements| ensures CallAll(fm, e.elements[i]) == Ok(v[i - j]) {
        if i > j { assert v[i - j] == w[i - (j + 1)]; }
      }
    }
  }

  lemma CallsOfSingle(fm: FunctionMap, c: Concat)
    requires CallAll(fm, c).Ok? && |c.parts| <= 1
    ensures c.parts == [] ==> CallAll(fm, c).value == c
    ensures |c.parts| == 1 ==> CallEntry(fm, c.parts[0]).Ok? && CallAll(fm, c).value == c.(parts := [CallEntry(fm, c.parts[0]).value])
  {
    hide CallEntry;
    if |c.parts| == 1 { assert CallParts(fm, c, 1) == Ok([]); }
  }

  /** The pass makes none of what the tree and the results of the functions have none of. */
  lemma {:induction false} CallsKeepFree(w: Construct, fm: FunctionMap, c: Concat)
    requires ValidFunctions(fm) && Free(w, c) && CallAll(fm, c).Ok?
    ensures Free(w, CallAll(fm, c).value)
    decreases c
  {
    hide CallEntry, FreeEntry, ValidFunctions;
    SummandsCalled(fm, c, 0);
    var d := CallAll(fm, c).value;
    forall i | 0 <= i < |c.parts| ensures FreeEntry(w, d.parts[i]) { CallsKeepFreeEntry(w, fm, c.parts[i]); }
  }

  lemma {:induction false} SummandsCalled(fm: FunctionMap, c: Concat, i: nat)
    requires i <= |c.parts| && CallParts(fm, c, i).Ok?
    ensures forall j | i <= j < |c.parts| :: CallEntry(fm, c.parts[j]) == Ok(CallParts(fm, c, i).value[j - i])
    decreases |c.parts| - i
  {
    hide CallEntry;
    if i < |c.parts| {
      SummandsCalled(fm, c, i + 1);
      var v, w := CallParts(fm, c, i).value, CallParts(fm, c, i + 1).value;
      forall j | i <= j < |c.parts| ensures CallEntry(fm, c.parts[j]) == Ok(v[j - i]) {
        if j > i { assert v[j - i] == w[j - (i + 1)]; }
      }
    }
  }

  lemma {:induction false} CallsKeepFreeEntry(w: Construct, fm: FunctionMap, e: Entry)
    requires ValidFunctions(fm) && FreeEntry(w, e) && CallEntry(fm, e).Ok?
    ensures FreeEntry(w, CallEntry(fm, e).value)
    decreases e
  {
    hide CallAll, Free, CallEntry, ValidFunctions;
    CallsBelow(fm, e);
    match e {
      case Object(m) =>
        var o := CallEntry(fm, e).value.members;
        forall n | n in m ensures Free(w, o[n]) { CallsKeepFree(w, fm, m[n]); }
      case Array(f, es) =>
        if f == "" {
          var ds := CallEntry(fm, e).value.elements;
          forall i | 0 <= i < |es| ensures Free(w, ds[i]) { CallsKeepFree(w, fm, es[i]); }
        } else {
          var args := CallArguments(fm, e);
          forall i | 0 <= i < |es| ensures Free(w, args[i]) { CallsKeepFree(w, fm, es[i]); }
          CallIsMade(fm, f, es, args);
          ResultIsFree(w, fm, f, args);
        }
      case _ =>
    }
  }

  lemma CallArguments(fm: FunctionMap, e: Entry) returns (args: seq<Concat>)
    requires e.Array? && CallEntry(fm, e).Ok?
    ensures |args| == |e.elements| && forall i | 0 <= i < |args| :: CallAll(fm, e.elements[i]) == Ok(args[i])
  {
    hide CallAll, CallElements, Invoke;
    ElementsCalled(fm, e, 0);
    args := CallElements(fm, e, 0).value;
  }

  lemma ResultIsFree(w: Construct, fm: FunctionMap, f: string, args: seq<Concat>)
    requires ValidFunctions(fm) && f != "" && f in fm && forall i | 0 <= i < |args| :: Free(w, args[i])
    ensures var v := if fm[f].Default? then DefaultCall(args) else fm[f].run(args);
      && (v.Value? ==> FreeEntry(w, v.entry))
      && (w != Invocation ==> FreeEntry(w, Array(f, args)))
  {
    if fm[f].Default? {
      if DefaultCall(args).Value? {
        var i := Calls.DefaultMovesArgument(args);
        FirstIsFree(w, args[i]);
      }
    } else if fm[f].run(args).Value? {
      PrimitiveEntryIsFree(w, fm[f].run(args).entry);
    }
  }

  /** A call is made with its arguments as the pass has left them; it is replaced, kept, or an error. */
  lemma CallIsMade(fm: FunctionMap, f: string, es: seq<Concat>, args: seq<Concat>)
    requires f != "" && |args| == |es| && forall i | 0 <= i < |es| :: CallAll(fm, es[i]) == Ok(args[i])
    ensures f !in fm ==> CallEntry(fm, Array(f, es)) == Err(UnknownFunction)
    ensures f in fm ==>
      var v := if fm[f].Default? then DefaultCall(args) else fm[f].run(args);
      && (v.Value? ==> CallEntry(fm, Array(f, es)) == Ok(v.entry))
      && (v.NotYet? ==> CallEntry(fm, Array(f, es)) == Ok(Array(f, args)))
      && (v.Fails? ==> CallEntry(fm, Array(f, es)) == Err(v.error))
  {
    hide CallAll, CallElements, DefaultCall;
    ArgumentsCalled(fm, Array(f, es), args, 0);
    assert args[0..] == args;
  }

  lemma {:induction false} ArgumentsCalled(fm: FunctionMap, e: Entry, args: seq<Concat>, j: nat)
    requires e.Array? && |args| == |e.elements| && j <= |args|
    requires forall i | 0 <= i < |args| :: CallAll(fm, e.elements[i]) == Ok(args[i])
    ensures CallElements(fm, e, j) == Ok(args[j..])
    decreases |args| - j
  {
    hide CallAll;
    if j < |args| {
      ArgumentsCalled(fm, e, args, j + 1);
      assert args[j..] == [args[j]] + args[j + 1..];
    } else {
      assert args[j..] == [];
    }
  }

  // ---- Which error ---------------------------------------------------------------------------

  /** The first argument that fails decides, before the call itself. */
  lemma {:induction false} FirstFailure(fm: FunctionMap, e: Entry, j: nat, i: nat)
    requires e.Array? && j <= i < |e.elements| && CallAll(fm, e.elements[i]).Err?
    requires forall x | j <= x < i :: CallAll(fm, e.elements[x]).Ok?
    ensures CallElements(fm, e, j) == Err(CallAll(fm, e.elements[i]).error)
    ensures j == 0 ==> CallEntry(fm, e) == Err(CallAll(fm, e.elements[i]).error)
    decreases i - j
  {
    hide CallAll;
    if j < i { FirstFailure(fm, e, j + 1, i); }
  }

  /** The same for summands and, by name, for members. */
  lemma {:induction false} FirstFailingSummand(fm: FunctionMap, c: Concat, j: nat, i: nat)
    requires j <= i < |c.parts| && CallEntry(fm, c.parts[i]).Err?
    requires forall x | j <= x < i :: CallEntry(fm, c.parts[x]).Ok?
    ensures CallParts(fm, c, j) == Err(CallEntry(fm, c.parts[i]).error)
    ensures j == 0 ==> CallAll(fm, c) == Err(CallEntry(fm, c.parts[i]).error)
    decreases i - j
  {
    hide CallEntry;
    if j < i { FirstFailingSummand(fm, c, j + 1, i); }
  }

  lemma {:induction false} FirstFailingMember(fm: FunctionMap, e: Entry, names: seq<string>, i: nat)
    requires e.Object? && (forall n | n in names :: n in e.members) && i < |names| && CallAll(fm, e.members[names[i]]).Err?
    requires forall x | 0 <= x < i :: CallAll(fm, e.members[names[x]]).Ok?
    ensures CallMembers(fm, e, names) == Err(CallAll(fm, e.members[names[i]]).error)
    ensures names == Sorted(e.members.Keys) ==> CallEntry(fm, e) == Err(CallAll(fm, e.members[names[i]]).error)
    decreases i
  {
    hide CallAll, Lists;
    if i > 0 {
      assert forall x | 0 <= x < i - 1 :: names[1..][x] == names[x + 1];
      FirstFailingMember(fm, e, names[1..], i - 1);
    }
  }
}

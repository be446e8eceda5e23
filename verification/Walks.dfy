/** Every outcome of a lookup, in terms of the place where it stops. */
module Walks {
  import opened Tree
  import opened Access
  import opened Scoping

  /** A lookup goes on through a concat with one summand that has the child in question. */
  predicate GoesOn(c: Concat, p: Key) {
    p != [] && |c.parts| == 1 && ChildOf(c.parts[0], p[0]).Some?
  }

  /** The concat in which a lookup of `p` stops. */
  function Stop(c: Concat, p: Key): Concat
    decreases |p|
  {
    if GoesOn(c, p) then Stop(ChildOf(c.parts[0], p[0]).value, p[1..]) else c
  }

  /** The parts of `p` that are left there. */
  function Left(c: Concat, p: Key): Key
    decreases |p|
  {
    if GoesOn(c, p) then Left(ChildOf(c.parts[0], p[0]).value, p[1..]) else p
  }

  /** The lookup has not yet left the part of the path that belongs to the scope. */
  predicate InPrefix(c: Concat, p: Key, down: int) {
    down >= |p| - |Left(c, p)|
  }

  /** The lookup stops at a single summand before it has found the name or the index. */
  predicate StopsAt(c: Concat, p: Key) {
    Left(c, p) != [] && |Stop(c, p).parts| == 1
  }

  function Last(c: Concat, p: Key): Entry
    requires StopsAt(c, p)
  {
    Stop(c, p).parts[0]
  }

  predicate NameLeft(c: Concat, p: Key) {
    Left(c, p) != [] && Left(c, p)[0].Name?
  }

  predicate IndexLeft(c: Concat, p: Key) {
    Left(c, p) != [] && Left(c, p)[0].Index?
  }

  lemma {:induction false} LeftIsShorter(c: Concat, p: Key)
    ensures |Left(c, p)| <= |p|
    ensures PlainKey(p) ==> PlainKey(Left(c, p))
    decreases |p|
  {
    if GoesOn(c, p) { LeftIsShorter(ChildOf(c.parts[0], p[0]).value, p[1..]); }
  }

  /** One step of the lookup is one step of the walk. */
  lemma LookupGoesOn(c: Concat, p: Key, down: int)
    requires GoesOn(c, p)
    ensures AccessConcat(c, p, down) == AccessConcat(ChildOf(c.parts[0], p[0]).value, p[1..], down - 1)
  {
  }

  /** The outcome depends on where the walk stops only. */
  lemma {:induction false} LookupStops(c: Concat, p: Key, down: int)
    ensures AccessConcat(c, p, down) == AccessConcat(Stop(c, p), Left(c, p), down - (|p| - |Left(c, p)|))
    ensures !GoesOn(Stop(c, p), Left(c, p))
    decreases |p|
  {
    hide AccessConcat;
    if GoesOn(c, p) {
      LookupGoesOn(c, p, down);
      LookupStops(ChildOf(c.parts[0], p[0]).value, p[1..], down - 1);
    }
  }

  /** A target is found exactly when the walk reaches the end of the path at a finished concat. */
  lemma FoundExactly(c: Concat, p: Key, down: int)
    ensures AccessConcat(c, p, down).Found? <==> Left(c, p) == [] && Primitive(Stop(c, p))
    ensures AccessConcat(c, p, down).Found? ==> AccessConcat(c, p, down).target == Stop(c, p)
  {
    hide Stop, Left, Primitive;
    LookupStops(c, p, down);
  }

  /**
   The next scope is tried exactly when the walk stops within the prefix, in an empty concat, or
   at an array or asterisk, or for a name at an object.
   */
  lemma MissingExactly(c: Concat, p: Key, down: int)
    requires PlainKey(p)
    ensures AccessConcat(c, p, down).Missing? <==>
      InPrefix(c, p, down) && Left(c, p) != [] &&
      (Stop(c, p).parts == []
       || (StopsAt(c, p) && (Last(c, p).Array? || Last(c, p).Asterisk? || (NameLeft(c, p) && Last(c, p).Object?))))
  {
    LookupStops(c, p, down);
    LeftIsShorter(c, p);
    hide Stop, Left, Primitive;
  }

  /**
   A lookup waits exactly when it stops at an unfinished target, at several summands, at nothing
   beyond the prefix, or for a name at a reference.
   */
  lemma WaitingExactly(c: Concat, p: Key, down: int)
    requires PlainKey(p)
    ensures AccessConcat(c, p, down).Waiting? <==>
      || (Left(c, p) == [] && !Primitive(Stop(c, p)))
      || (Left(c, p) != [] && |Stop(c, p).parts| > 1)
      || (Left(c, p) != [] && Stop(c, p).parts == [] && !InPrefix(c, p, down))
      || (StopsAt(c, p) && NameLeft(c, p) && Last(c, p).Reference?)
  {
    LookupStops(c, p, down);
    LeftIsShorter(c, p);
    hide Stop, Left, Primitive;
  }

  /** Each error of a lookup has its own places to stop at; there are no other errors. */
  lemma FailsExactly(c: Concat, p: Key, down: int)
    requires PlainKey(p)
    ensures AccessConcat(c, p, down) == Failed(CannotIndex) <==>
      StopsAt(c, p) && IndexLeft(c, p) && !Last(c, p).Array? && !(Last(c, p).Asterisk? && InPrefix(c, p, down))
    ensures AccessConcat(c, p, down) == Failed(OutOfRange) <==>
      StopsAt(c, p) && IndexLeft(c, p) && Last(c, p).Array? && !InPrefix(c, p, down)
    ensures AccessConcat(c, p, down) == Failed(CannotAccessName) <==>
      StopsAt(c, p) && NameLeft(c, p) && (IsAtom(Last(c, p)) || (Last(c, p).Array? && !InPrefix(c, p, down)))
    ensures AccessConcat(c, p, down) == Failed(NameNotFound) <==>
      StopsAt(c, p) && NameLeft(c, p) && (Last(c, p).Object? || Last(c, p).Asterisk?) && !InPrefix(c, p, down)
    ensures AccessConcat(c, p, down).Failed? ==>
      AccessConcat(c, p, down).error in {CannotIndex, OutOfRange, CannotAccessName, NameNotFound}
  {
    LookupStops(c, p, down);
    LeftIsShorter(c, p);
    hide Stop, Left, Primitive;
  }
}

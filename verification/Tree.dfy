/**
 The intermediate tree of the config evaluator.  The C++ tree is built from values
 (`std::list`, `std::map` and `std::variant` own their elements), so it is a datatype here:
 updating a node in place means storing a new value into the node that owns it.
 */
module Tree {

  /** The exceptions that end an evaluation. */
  datatype Error =
    | IncompatibleAddition
    | AsteriskInFunction
    | UnknownFunction
    | BadArguments
    | NestingExceeded
    | ExpectedName
    | CannotIndex
    | OutOfRange
    | CannotAccessName
    | NameNotFound
    | CannotAccessAsterisk
    | InvalidReferencePart
    | FunctionNotCalled
    | AsteriskNotExpanded
    | ReferenceNotResolved
    | AssertionFailed
    | TooManyDigits
    | ExponentTooLong
    | HexadecimalTooLarge
    | InvalidKey

  datatype Result<+T> = Ok(value: T) | Err(error: Error)

  /** A list of summands that are still to be added up. */
  datatype Concat = Concat(
    parts: seq<Entry>,
    remove: bool,
    implicit: bool,
    temporary: bool,
    generation: nat)

  datatype Entry =
    | Null
    | Boolean(truth: bool)
    | Text(chars: string)
    | Binary(bytes: seq<bv8>)
    | Signed(i: int)
    | Unsigned(u: nat)
    | Double(d: Float)
    | Array(call: string, elements: seq<Concat>)
    | Object(members: Members)
    | Asterisk(star: Concat)
    | Reference(target: seq<RefPart>)

  /** A double as it was read, or the rounded sum of two doubles; nothing else is known of it. */
  datatype Float = Bits(bits: int) | Rounded(x: Float, y: Float)

  type Members = map<string, Concat>

  datatype RefPart = RefName(name: string) | RefIndex(index: nat) | RefInner(inner: seq<RefPart>)

  /** One step of a path; the last two kinds occur only while a file is read. */
  datatype KeyPart = Name(name: string) | Index(index: nat) | Star | Append(generation: nat)

  type Key = seq<KeyPart>

  /** A concat as its constructor leaves it. */
  const EMPTY: Concat := Concat([], false, false, false, 0)

  /** Null, a boolean, a number, a string or binary data. */
  predicate IsAtom(e: Entry) {
    !e.Array? && !e.Object? && !e.Asterisk? && !e.Reference?
  }

  predicate IsFunction(e: Entry) {
    e.Array? && e.call != ""
  }

  /** Entries that an addition has to leave alone for now. */
  predicate Pending(e: Entry) {
    e.Asterisk? || e.Reference? || IsFunction(e)
  }

  /** The whole tree as a concat, so that the root object is not a special case. */
  function Root(m: Members): Concat {
    EMPTY.(parts := [Object(m)])
  }

  /** Nothing in the subtree is left to do for phase 2. */
  predicate Primitive(c: Concat) {
    |c.parts| <= 1 && forall i | 0 <= i < |c.parts| :: PrimitiveEntry(c.parts[i])
  }

  predicate PrimitiveEntry(e: Entry) {
    match e
    case Array(f, es) => f == "" && forall i | 0 <= i < |es| :: Primitive(es[i])
    case Object(m) => forall n | n in m :: Primitive(m[n])
    case Asterisk(_) => false
    case Reference(_) => false
    case _ => true
  }
}

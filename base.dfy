/** Shared vocabulary of the PSD decoder model: bytes, the decoder's failure
    kinds, the Result type that carries them, and the shape of a reader's
    answer (a value together with the position just after it). */
module Base {

  /** One byte of the input stream. */
  type Byte = b: int | 0 <= b < 256

  datatype Option<+T> = None | Some(value: T)

  /** The ways a decode can fail. Every one of them aborts the whole decode. */
  datatype Error =
    | EndOfStream                 // a read needs more bytes than the stream still holds
    | NegativeRead                // a read of a negative number of bytes
    | NegativeSeek                // a seek to a position before the start of the stream
    | BadIntSize                  // read_int/read_uint called with a size outside {1,2,4,8}
    | BadSignature                // a magic value ("8BPS", "8BIM", "8B64") does not match
    | BadVersion                  // a version or header constant does not match
    | NonZeroReserved             // a must-be-zero field is not zero
    | UnsupportedDescriptorType   // a descriptor value tag outside the eight known shapes
    | CombineModeConflict         // vector-mask subpaths whose combine modes cannot be merged
    | UnknownCombineMode          // a combine mode outside {-1, 0, 1, 2}
    | UnknownRecord               // a path record of unrecognised type reaches the path builder
    | UnsupportedGradient         // a gradient option the converter does not implement
    | BadCodeUnit                 // unichr() refuses a code unit that read_int(2) gave as negative
    | IndexOutOfRange             // indexing an empty stop list
    | DivisionByZero              // normalising a single stop location

  datatype Result<+T> = Success(value: T) | Failure(error: Error) {
    predicate IsFailure() { Failure? }
    function PropagateFailure<U>(): Result<U>
      requires Failure?
    {
      Failure(error)
    }
    function Extract(): T
      requires Success?
    {
      value
    }
  }

  /** A 'bounds' dictionary: the document's or a layer's rectangle. */
  datatype Rect = Rect(top: int, left: int, bottom: int, right: int)

  /** A value read from the stream and the stream position just after it. */
  datatype Parsed<+T> = Parsed(value: T, next: nat)

  /** The outcome `r` of a reader method, with the reader now at `pos`, is the
      one the reader's grammar function predicts (`s`): the same failure, or the
      same value with the reader positioned just after it. */
  ghost predicate Agrees<T>(r: Result<T>, s: Result<Parsed<T>>, pos: int) {
    match s
    case Success(p) => r == Success(p.value) && pos == p.next
    case Failure(e) => r == Failure(e)
  }

  /** The bytes of a string of 8-bit characters (the source's byte strings). */
  function Ascii(s: string): (r: seq<Byte>)
    requires forall i | 0 <= i < |s| :: s[i] as int < 256
    ensures |r| == |s|
    ensures forall i | 0 <= i < |s| :: r[i] == s[i] as int
  {
    seq(|s|, i requires 0 <= i < |s| => s[i] as int)
  }

  function Max0(x: int): nat {
    if x < 0 then 0 else x
  }

  function Abs(x: int): nat {
    if x < 0 then -x else x
  }

  /** An accumulated prefix glued in front of a parse of the rest. */
  function Prepend<T>(acc: seq<T>, r: Result<Parsed<seq<T>>>): (s: Result<Parsed<seq<T>>>)
    ensures s.Success? <==> r.Success?
    ensures r.Success? ==> s.value.value == acc + r.value.value && s.value.next == r.value.next
    ensures r.Failure? ==> s.error == r.error
  {
    match r
    case Success(p) => Success(Parsed(acc + p.value, p.next))
    case Failure(e) => Failure(e)
  }

  /** Gluing one more element onto the accumulated prefix. */
  lemma PrependStep<T>(acc: seq<T>, x: T, r: Result<Parsed<seq<T>>>)
    ensures Prepend(acc + [x], r) == Prepend(acc, Prepend([x], r))
  {
    if r.Success? {
      assert acc + [x] + r.value.value == acc + ([x] + r.value.value);
    }
  }

  /** Nothing accumulated yet. */
  lemma PrependEmpty<T>(r: Result<Parsed<seq<T>>>)
    ensures Prepend([], r) == r
  {
    if r.Success? {
      assert [] + r.value.value == r.value.value;
    }
  }

  /** n values read back to back by `elem`, each one starting where the one
      before it ended (a `for i in range(n)` loop of appends). */
  function RepeatAt<T>(elem: nat -> Result<Parsed<T>>, pos: nat, n: nat): (r: Result<Parsed<seq<T>>>)
    ensures r.Success? ==> |r.value.value| == n
    decreases n
  {
    if n == 0 then Success(Parsed([], pos))
    else
      var x :- elem(pos);
      Prepend([x.value], RepeatAt(elem, x.next, n - 1))
  }

  /** Reading one more value after the first k extends what was read so far
      by that value. */
  lemma {:induction false} RepeatSnoc<T>(elem: nat -> Result<Parsed<T>>, start: nat, k: nat, acc: seq<T>, p: nat, x: T, q: nat)
    requires RepeatAt(elem, start, k) == Success(Parsed(acc, p))
    requires elem(p) == Success(Parsed(x, q))
    ensures RepeatAt(elem, start, k + 1) == Success(Parsed(acc + [x], q))
    decreases k
  {
    if k == 0 {
      assert acc == [] && p == start;
      assert RepeatAt(elem, q, 0) == Success(Parsed([], q));
      assert [x] + [] == acc + [x];
    } else {
      var first := elem(start).value;
      var rest := RepeatAt(elem, first.next, k - 1);
      RepeatSnoc(elem, first.next, k - 1, rest.value.value, p, x, q);
      assert [first.value] + (rest.value.value + [x]) == acc + [x];
    }
  }

  /** A value that fails to read after the first k makes every longer
      repetition fail with its error. */
  lemma {:induction false} RepeatFailAfter<T>(elem: nat -> Result<Parsed<T>>, start: nat, k: nat, acc: seq<T>, p: nat, e: Error, m: nat)
    requires k < m
    requires RepeatAt(elem, start, k) == Success(Parsed(acc, p))
    requires elem(p) == Failure(e)
    ensures RepeatAt(elem, start, m) == Failure(e)
    decreases k
  {
    if k > 0 {
      var first := elem(start).value;
      RepeatFailAfter(elem, first.next, k - 1, RepeatAt(elem, first.next, k - 1).value.value, p, e, m - 1);
    }
  }

  /** Value k of a successful repetition is the one read where the first k
      end. */
  lemma {:induction false} RepeatElement<T>(elem: nat -> Result<Parsed<T>>, pos: nat, n: nat, k: nat)
    requires RepeatAt(elem, pos, n).Success? && k < n
    ensures RepeatAt(elem, pos, k).Success?
    ensures RepeatAt(elem, pos, k).value.value == RepeatAt(elem, pos, n).value.value[..k]
    ensures elem(RepeatAt(elem, pos, k).value.next).Success?
    ensures elem(RepeatAt(elem, pos, k).value.next).value.value == RepeatAt(elem, pos, n).value.value[k]
    decreases k
  {
    var first := elem(pos).value;
    var rest := RepeatAt(elem, first.next, n - 1).value.value;
    assert RepeatAt(elem, pos, n).value.value == [first.value] + rest;
    if k > 0 {
      RepeatElement(elem, first.next, n - 1, k - 1);
      assert [first.value] + rest[..k - 1] == ([first.value] + rest)[..k];
    }
  }

  /** An accumulated prefix glued in front of a result list. */
  function Glue<T>(acc: seq<T>, r: Result<seq<T>>): Result<seq<T>> {
    match r
    case Success(v) => Success(acc + v)
    case Failure(e) => Failure(e)
  }

  lemma GlueEmpty<T>(r: Result<seq<T>>)
    ensures Glue([], r) == r
  {
    if r.Success? {
      assert [] + r.value == r.value;
    }
  }

  lemma GlueGlue<T>(acc: seq<T>, f: seq<T>, r: Result<seq<T>>)
    ensures Glue(acc, Glue(f, r)) == Glue(acc + f, r)
  {
    if r.Success? {
      assert acc + (f + r.value) == acc + f + r.value;
    }
  }

  /** The product of two numbers that are not negative is not negative. */
  lemma MulNonneg(x: real, y: real)
    requires 0.0 <= x && 0.0 <= y
    ensures 0.0 <= x * y
  {
  }
}

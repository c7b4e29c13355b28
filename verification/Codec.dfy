/** Self-delimiting codecs, how they combine, and streams of what they encode. */
module Codecs {
  import opened RaftTypes

  /** The outcome of decoding the start of some bytes: a value and how many bytes it took, or
      the bytes run out, or they cannot be an encoding. */
  datatype Parsed<+T> = Done(value: T, used: nat) | NeedMore | Malformed

  type Decoder<!T> = seq<Byte> -> Parsed<T>

  datatype Codec<!T> = Codec(enc: T -> seq<Byte>, dec: Decoder<T>)

  /** Self-delimiting: the code decodes to its value whatever follows it, and cut anywhere it
      runs out of bytes. */
  ghost predicate Reads<T(!new)>(dec: Decoder<T>, code: seq<Byte>, v: T) {
    && (forall rest :: dec(code + rest) == Done(v, |code|))
    && (forall n :: 0 <= n < |code| ==> dec(code[..n]) == NeedMore)
  }

  ghost predicate Lawful<T(!new)>(c: Codec<T>) {
    forall v :: Reads(c.dec, c.enc(v), v)
  }

  /** A decoder takes no more bytes than there are. */
  ghost predicate Within<T(!new)>(dec: Decoder<T>) {
    forall b :: dec(b).Done? ==> dec(b).used <= |b|
  }

  // ---- combining decoders ----

  function Mapped<A, B>(p: Parsed<A>, f: A -> B): Parsed<B> {
    match p
    case Done(v, n) => Done(f(v), n)
    case NeedMore => NeedMore
    case Malformed => Malformed
  }

  lemma MappedReads<A(!new), B(!new)>(dec: Decoder<A>, code: seq<Byte>, v: A, f: A -> B, whole: Decoder<B>)
    requires Reads(dec, code, v) && forall b :: whole(b) == Mapped(dec(b), f)
    ensures Reads(whole, code, f(v))
  {
  }

  /** What comes `skip` bytes into the input. */
  function Behind<T>(p: Parsed<T>, skip: nat): Parsed<T> {
    match p
    case Done(v, n) => Done(v, skip + n)
    case NeedMore => NeedMore
    case Malformed => Malformed
  }

  /** One value, then another. */
  function Sequence<A, B>(a: Decoder<A>, b: Decoder<B>, s: seq<Byte>): Parsed<(A, B)> {
    match a(s)
    case NeedMore => NeedMore
    case Malformed => Malformed
    case Done(x, n) => if |s| < n then Malformed else Behind(Mapped(b(s[n..]), y => (x, y)), n)
  }

  lemma SequenceReads<A(!new), B(!new)>(a: Decoder<A>, p: seq<Byte>, x: A, b: Decoder<B>, q: seq<Byte>, y: B)
    requires Reads(a, p, x) && Reads(b, q, y)
    ensures Reads(s => Sequence(a, b, s), p + q, (x, y))
  {
    forall rest: seq<Byte> ensures Sequence(a, b, p + q + rest) == Done((x, y), |p + q|) {
      assert p + q + rest == p + (q + rest);
    }
    forall n: int | 0 <= n < |p + q| ensures Sequence(a, b, (p + q)[..n]) == NeedMore {
      if n < |p| {
        assert (p + q)[..n] == p[..n];
      } else {
        assert (p + q)[..n] == p + q[..n - |p|];
      }
    }
  }

  function Pair<A, B>(a: Codec<A>, b: Codec<B>): Codec<(A, B)> {
    Codec((v: (A, B)) => a.enc(v.0) + b.enc(v.1), s => Sequence(a.dec, b.dec, s))
  }

  lemma PairLawful<A(!new), B(!new)>(a: Codec<A>, b: Codec<B>)
    requires Lawful(a) && Lawful(b)
    ensures Lawful(Pair(a, b))
  {
    forall v: (A, B) ensures Reads(Pair(a, b).dec, Pair(a, b).enc(v), v) {
      SequenceReads(a.dec, a.enc(v.0), v.0, b.dec, b.enc(v.1), v.1);
    }
  }

  /** A leading byte says how to go on. */
  function ByFirst<T>(dec: Byte -> Decoder<T>, b: seq<Byte>): Parsed<T> {
    if b == [] then NeedMore else Behind(dec(b[0])(b[1..]), 1)
  }

  lemma ByFirstReads<T(!new)>(dec: Byte -> Decoder<T>, first: Byte, code: seq<Byte>, v: T)
    requires Reads(dec(first), code, v)
    ensures Reads(b => ByFirst(dec, b), [first] + code, v)
  {
    forall rest: seq<Byte> ensures ByFirst(dec, [first] + code + rest) == Done(v, |code| + 1) {
      assert ([first] + code + rest)[1..] == code + rest;
    }
    forall n: int | 0 <= n < |code| + 1 ensures ByFirst(dec, ([first] + code)[..n]) == NeedMore {
      if n > 0 {
        assert ([first] + code)[..n][1..] == code[..n - 1];
      }
    }
  }

  /** An option is a byte 0, or a byte 1 and the value. */
  function Optional<T>(c: Codec<T>): Codec<Option<T>> {
    Codec((v: Option<T>) => if v.Some? then [1] + c.enc(v.value) else [0],
          s => ByFirst(first => b => OptionBody(c, first, b), s))
  }

  function OptionBody<T>(c: Codec<T>, first: Byte, b: seq<Byte>): Parsed<Option<T>> {
    if first == 0 then Done(None, 0)
    else if first == 1 then Mapped(c.dec(b), v => Some(v))
    else Malformed
  }

  lemma OptionalLawful<T(!new)>(c: Codec<T>)
    requires Lawful(c)
    ensures Lawful(Optional(c))
  {
    var dec := (first: Byte) => (b: seq<Byte>) => OptionBody(c, first, b);
    forall v: Option<T> ensures Reads(Optional(c).dec, Optional(c).enc(v), v) {
      if v.Some? {
        MappedReads(c.dec, c.enc(v.value), v.value, (x: T) => Some(x), dec(1));
        ByFirstReads(dec, 1, c.enc(v.value), v);
      } else {
        assert Reads(dec(0), [], v);
        ByFirstReads(dec, 0, [], v);
        assert [0] + [] == [0 as Byte];
      }
    }
  }

  lemma OptionalWithin<T(!new)>(c: Codec<T>)
    requires Within(c.dec)
    ensures Within(Optional(c).dec)
  {
  }

  // ---- big-endian numbers ----

  function BigEndian(n: nat, width: nat): (b: seq<Byte>)
    ensures |b| == width
  {
    if width == 0 then [] else BigEndian(n / 0x100, width - 1) + [n % 0x100]
  }

  function Number(b: seq<Byte>): nat {
    if b == [] then 0 else 0x100 * Number(b[..|b| - 1]) + b[|b| - 1]
  }

  function Bound(width: nat): nat {
    if width == 0 then 1 else 0x100 * Bound(width - 1)
  }

  lemma {:induction false} NumberOfBytes(n: nat, width: nat)
    requires n < Bound(width)
    ensures Number(BigEndian(n, width)) == n
  {
    if width > 0 {
      NumberOfBytes(n / 0x100, width - 1);
      assert BigEndian(n, width)[..width - 1] == BigEndian(n / 0x100, width - 1);
    }
  }

  lemma SmallNumber(n: Byte)
    ensures BigEndian(n, 4) == [0, 0, 0, n] && BigEndian(n, 8) == [0, 0, 0, 0, 0, 0, 0, n]
  {
    Zeros(3);
    Zeros(7);
  }

  lemma {:induction false} Zeros(width: nat)
    ensures BigEndian(0, width) == seq(width, _ => 0)
  {
    if width > 0 {
      Zeros(width - 1);
    }
  }

  // ---- checksummed frames ----

  const TAG_WIDTH: nat := 4
  const CHECKSUM_WIDTH: nat := 8

  type Checksum = seq<Byte> -> seq<Byte>

  ghost predicate FixedWidth(sum: Checksum) {
    forall b :: |sum(b)| == CHECKSUM_WIDTH
  }

  function Frame(sum: Checksum, tag: nat, code: seq<Byte>): seq<Byte> {
    var body := BigEndian(tag, TAG_WIDTH) + code;
    body + sum(body)
  }

  /** The tag says how to decode what follows. */
  function Tagged<T>(dec: nat -> Decoder<T>, b: seq<Byte>): Parsed<T> {
    if |b| < TAG_WIDTH then NeedMore else Behind(dec(Number(b[..TAG_WIDTH]))(b[TAG_WIDTH..]), TAG_WIDTH)
  }

  /** The value counts only if the checksum of the bytes up to it comes right behind. */
  function Unframe<T>(sum: Checksum, dec: nat -> Decoder<T>, b: seq<Byte>): Parsed<T> {
    match Tagged(dec, b)
    case NeedMore => NeedMore
    case Malformed => Malformed
    case Done(v, n) => Verify(sum, b, v, n)
  }

  function Verify<T>(sum: Checksum, b: seq<Byte>, v: T, n: nat): Parsed<T> {
    if |b| < n + CHECKSUM_WIDTH then NeedMore
    else if b[n..n + CHECKSUM_WIDTH] == sum(b[..n]) then Done(v, n + CHECKSUM_WIDTH)
    else Malformed
  }

  lemma FrameWithTail<T(!new)>(sum: Checksum, dec: nat -> Decoder<T>, tag: nat, code: seq<Byte>, v: T, rest: seq<Byte>)
    requires FixedWidth(sum) && tag < Bound(TAG_WIDTH) && Reads(dec(tag), code, v)
    ensures Unframe(sum, dec, Frame(sum, tag, code) + rest) == Done(v, |Frame(sum, tag, code)|)
  {
    var body, b := BigEndian(tag, TAG_WIDTH) + code, Frame(sum, tag, code) + rest;
    NumberOfBytes(tag, TAG_WIDTH);
    assert b[..TAG_WIDTH] == BigEndian(tag, TAG_WIDTH);
    assert b[TAG_WIDTH..] == code + (sum(body) + rest);
    assert b[..|body|] == body && b[|body|..|body| + CHECKSUM_WIDTH] == sum(body);
  }

  lemma FrameCut<T(!new)>(sum: Checksum, dec: nat -> Decoder<T>, tag: nat, code: seq<Byte>, v: T, n: nat)
    requires FixedWidth(sum) && tag < Bound(TAG_WIDTH) && Reads(dec(tag), code, v)
    requires n < |Frame(sum, tag, code)|
    ensures Unframe(sum, dec, Frame(sum, tag, code)[..n]) == NeedMore
  {
    var body, b := BigEndian(tag, TAG_WIDTH) + code, Frame(sum, tag, code)[..n];
    if TAG_WIDTH <= n {
      NumberOfBytes(tag, TAG_WIDTH);
      assert b[..TAG_WIDTH] == BigEndian(tag, TAG_WIDTH);
      if n < |body| {
        assert b[TAG_WIDTH..] == code[..n - TAG_WIDTH];
      } else {
        assert b[TAG_WIDTH..] == code + sum(body)[..n - |body|];
      }
    }
  }

  lemma FrameReads<T(!new)>(sum: Checksum, dec: nat -> Decoder<T>, tag: nat, code: seq<Byte>, v: T)
    requires FixedWidth(sum) && tag < Bound(TAG_WIDTH) && Reads(dec(tag), code, v)
    ensures Reads(b => Unframe(sum, dec, b), Frame(sum, tag, code), v)
  {
    forall rest: seq<Byte> ensures Unframe(sum, dec, Frame(sum, tag, code) + rest) == Done(v, |Frame(sum, tag, code)|) {
      FrameWithTail(sum, dec, tag, code, v, rest);
    }
    forall n: int | 0 <= n < |Frame(sum, tag, code)| ensures Unframe(sum, dec, Frame(sum, tag, code)[..n]) == NeedMore {
      FrameCut(sum, dec, tag, code, v, n);
    }
  }

  /** Nothing is accepted without a checksum that matches. */
  lemma AcceptedIsVerified<T>(sum: Checksum, dec: nat -> Decoder<T>, b: seq<Byte>)
    requires Unframe(sum, dec, b).Done?
    ensures var n := Unframe(sum, dec, b).used;
            && TAG_WIDTH + CHECKSUM_WIDTH <= n <= |b|
            && dec(Number(b[..TAG_WIDTH]))(b[TAG_WIDTH..]) ==
                 Done(Unframe(sum, dec, b).value, n - TAG_WIDTH - CHECKSUM_WIDTH)
            && b[n - CHECKSUM_WIDTH..n] == sum(b[..n - CHECKSUM_WIDTH])
  {
  }

  /** A value that is wholly there, but with another checksum behind it, is malformed whatever
      follows; it is never taken for one that is cut short. */
  lemma WrongChecksum<T(!new)>(sum: Checksum, dec: nat -> Decoder<T>, tag: nat, code: seq<Byte>, v: T,
                               stored: seq<Byte>, rest: seq<Byte>)
    requires tag < Bound(TAG_WIDTH) && Reads(dec(tag), code, v)
    requires |stored| == CHECKSUM_WIDTH && stored != sum(BigEndian(tag, TAG_WIDTH) + code)
    ensures Unframe(sum, dec, BigEndian(tag, TAG_WIDTH) + code + stored + rest) == Malformed
  {
    var body := BigEndian(tag, TAG_WIDTH) + code;
    var b := body + stored + rest;
    NumberOfBytes(tag, TAG_WIDTH);
    assert b[..TAG_WIDTH] == BigEndian(tag, TAG_WIDTH);
    assert b[TAG_WIDTH..] == code + (stored + rest);
    assert b[..|body|] == body && b[|body|..|body| + CHECKSUM_WIDTH] == stored;
  }

  /** What cannot be a payload under its tag is malformed at once. */
  lemma WrongPayload<T(!new)>(sum: Checksum, dec: nat -> Decoder<T>, tag: nat, b: seq<Byte>)
    requires tag < Bound(TAG_WIDTH) && dec(tag)(b) == Malformed
    ensures Unframe(sum, dec, BigEndian(tag, TAG_WIDTH) + b) == Malformed
  {
    var all := BigEndian(tag, TAG_WIDTH) + b;
    NumberOfBytes(tag, TAG_WIDTH);
    assert all[..TAG_WIDTH] == BigEndian(tag, TAG_WIDTH) && all[TAG_WIDTH..] == b;
  }

  // ---- streams ----

  function EncodeAll<T>(c: Codec<T>, vs: seq<T>): seq<Byte> {
    if vs == [] then [] else c.enc(vs[0]) + EncodeAll(c, vs[1..])
  }

  datatype Ending = Clean | Torn | Corrupt

  /** Reads values until the bytes end, run out, or make no sense. */
  function DecodeAll<T>(dec: Decoder<T>, b: seq<Byte>): (seq<T>, Ending) {
    if b == [] then ([], Clean)
    else
      match dec(b)
      case NeedMore => ([], Torn)
      case Malformed => ([], Corrupt)
      case Done(v, n) =>
        if n == 0 || |b| < n then ([], Corrupt)
        else
          var (vs, ending) := DecodeAll(dec, b[n..]);
          ([v] + vs, ending)
  }

  ghost predicate NeverEmpty<T(!new)>(c: Codec<T>) {
    forall v :: c.enc(v) != []
  }

  /** How many values lie wholly within the first `n` bytes. */
  function Whole<T>(c: Codec<T>, vs: seq<T>, n: nat): (k: nat)
    ensures k <= |vs|
  {
    if vs == [] || n < |c.enc(vs[0])| then 0 else 1 + Whole(c, vs[1..], n - |c.enc(vs[0])|)
  }

  lemma {:induction false} WholeIsMost<T>(c: Codec<T>, vs: seq<T>, n: nat, m: nat)
    requires m <= |vs|
    ensures m <= Whole(c, vs, n) <==> |EncodeAll(c, vs[..m])| <= n
  {
    if m > 0 {
      assert vs[..m][0] == vs[0] && vs[..m][1..] == vs[1..][..m - 1];
      if |c.enc(vs[0])| <= n {
        WholeIsMost(c, vs[1..], n - |c.enc(vs[0])|, m - 1);
      }
    }
  }

  lemma {:induction false} EncodeAllConcat<T>(c: Codec<T>, a: seq<T>, b: seq<T>)
    ensures EncodeAll(c, a + b) == EncodeAll(c, a) + EncodeAll(c, b)
  {
    if a == [] {
      assert a + b == b;
    } else {
      assert (a + b)[1..] == a[1..] + b;
      EncodeAllConcat(c, a[1..], b);
    }
  }

  lemma EncodeOne<T>(c: Codec<T>, v: T)
    ensures EncodeAll(c, [v]) == c.enc(v)
  {
    assert [v][1..] == [];
  }

  lemma DecodeFirst<T(!new)>(c: Codec<T>, v: T, more: seq<Byte>)
    requires Lawful(c) && NeverEmpty(c)
    ensures var (vs, ending) := DecodeAll(c.dec, more);
            DecodeAll(c.dec, c.enc(v) + more) == ([v] + vs, ending)
  {
    assert Reads(c.dec, c.enc(v), v);
    assert (c.enc(v) + more)[|c.enc(v)|..] == more;
  }

  lemma CutFirst<T(!new)>(c: Codec<T>, v: T, n: nat)
    requires Lawful(c) && 0 < n < |c.enc(v)|
    ensures DecodeAll(c.dec, c.enc(v)[..n]) == ([], Torn)
  {
    assert Reads(c.dec, c.enc(v), v);
  }

  lemma EncodeAllCons<T>(c: Codec<T>, vs: seq<T>, k: nat)
    requires k < |vs|
    ensures vs[..k + 1] == [vs[0]] + vs[1..][..k]
    ensures |EncodeAll(c, vs[..k + 1])| == |c.enc(vs[0])| + |EncodeAll(c, vs[1..][..k])|
  {
    EncodeAllConcat(c, [vs[0]], vs[1..][..k]);
    EncodeOne(c, vs[0]);
  }

  /** A stream cut at any byte decodes to exactly the values that are wholly there; it is torn
      unless the cut falls between two of them, and never corrupt. */
  lemma {:induction false} CutStreamDecodes<T(!new)>(c: Codec<T>, vs: seq<T>, n: nat)
    requires Lawful(c) && NeverEmpty(c) && n <= |EncodeAll(c, vs)|
    ensures var k := Whole(c, vs, n);
            DecodeAll(c.dec, EncodeAll(c, vs)[..n]) == (vs[..k], if n == |EncodeAll(c, vs[..k])| then Clean else Torn)
  {
    if n > 0 {
      var first, rest, b := |c.enc(vs[0])|, vs[1..], EncodeAll(c, vs)[..n];
      if n < first {
        CutFirst(c, vs[0], n);
        assert b == c.enc(vs[0])[..n];
      } else {
        var k := Whole(c, rest, n - first);
        assert b == c.enc(vs[0]) + EncodeAll(c, rest)[..n - first];
        DecodeFirst(c, vs[0], EncodeAll(c, rest)[..n - first]);
        CutStreamDecodes(c, rest, n - first);
        EncodeAllCons(c, vs, k);
      }
    }
  }

  /** Values, then one more that is cut short: exactly the values come back. */
  lemma TornTail<T(!new)>(c: Codec<T>, vs: seq<T>, last: T, n: nat)
    requires Lawful(c) && NeverEmpty(c) && n < |c.enc(last)|
    ensures DecodeAll(c.dec, EncodeAll(c, vs) + c.enc(last)[..n]) == (vs, if n == 0 then Clean else Torn)
  {
    var all, m := vs + [last], |EncodeAll(c, vs)| + n;
    EncodeAllConcat(c, vs, [last]);
    EncodeOne(c, last);
    assert EncodeAll(c, all)[..m] == EncodeAll(c, vs) + c.enc(last)[..n];
    CutStreamDecodes(c, all, m);
    WholeIsMost(c, all, m, |vs|);
    WholeIsMost(c, all, m, |all|);
    assert all[..|vs|] == vs && all[..|all|] == all;
  }

  /** Values, then bytes that cannot be one: the values come back, and the stream is corrupt. */
  lemma {:induction false} CorruptTail<T(!new)>(c: Codec<T>, vs: seq<T>, bad: seq<Byte>)
    requires Lawful(c) && NeverEmpty(c) && bad != [] && c.dec(bad) == Malformed
    ensures DecodeAll(c.dec, EncodeAll(c, vs) + bad) == (vs, Corrupt)
    decreases |vs|
  {
    if vs == [] {
      assert EncodeAll(c, vs) + bad == bad;
    } else {
      var more := EncodeAll(c, vs[1..]) + bad;
      assert EncodeAll(c, vs) + bad == c.enc(vs[0]) + more;
      CorruptTail(c, vs[1..], bad);
      DecodeFirst(c, vs[0], more);
      assert vs == [vs[0]] + vs[1..];
    }
  }

  /** No byte string is the encoding of two streams. */
  lemma StreamIsUnambiguous<T(!new)>(c: Codec<T>, a: seq<T>, b: seq<T>)
    requires Lawful(c) && NeverEmpty(c) && EncodeAll(c, a) == EncodeAll(c, b)
    ensures a == b
  {
    var n := |EncodeAll(c, a)|;
    assert EncodeAll(c, a)[..n] == EncodeAll(c, b)[..n];
    CutStreamDecodes(c, a, n);
    CutStreamDecodes(c, b, n);
    WholeIsMost(c, a, n, |a|);
    WholeIsMost(c, b, n, |b|);
    assert a[..|a|] == a && b[..|b|] == b;
  }
}

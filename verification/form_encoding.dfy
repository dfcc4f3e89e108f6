/**
  The `application/x-www-form-urlencoded` serialisation that `URLSearchParams`
  performs in `toString()`: every name and value is UTF-8 encoded, the bytes
  `*-._`, digits and ASCII letters are kept, a space becomes `+`, and every
  other byte becomes `%XX` with upper-case hex; pairs are written `name=value`
  and joined with `&`.
 */
module FormEncoding {

  import opened Text

  /** A query parameter as appended with `params.append(name, value)`. */
  datatype Param = Param(name: string, value: string)

  /** The parameter names, in order. */
  function Names(ps: seq<Param>): (r: seq<string>)
    ensures |r| == |ps|
    ensures forall i :: 0 <= i < |ps| ==> r[i] == ps[i].name
  {
    if ps == [] then [] else [ps[0].name] + Names(ps[1..])
  }

  /** The UTF-8 bytes of one Unicode scalar value. */
  function Utf8(c: char): (r: seq<nat>)
    ensures 1 <= |r| <= 4
    ensures (c as int) < 0x80 ==> r == [c as int]
    ensures (c as int) >= 0x80 ==> forall k :: 0 <= k < |r| ==> 0x80 <= r[k] < 0x100
  {
    var n := c as int;
    if n < 0x80 then [n]
    else if n < 0x800 then [0xC0 + n / 64, 0x80 + n % 64]
    else if n < 0x10000 then [0xE0 + n / 4096, 0x80 + (n / 64) % 64, 0x80 + n % 64]
    else [0xF0 + n / 262144, 0x80 + (n / 4096) % 64, 0x80 + (n / 64) % 64, 0x80 + n % 64]
  }

  /** Bytes the form serialiser leaves as they are. */
  predicate KeptByte(b: nat) {
    b == 0x2A || b == 0x2D || b == 0x2E || b == 0x5F
    || (0x30 <= b <= 0x39) || (0x41 <= b <= 0x5A) || (0x61 <= b <= 0x7A)
  }

  /** Characters that stand for themselves in a serialised query. */
  predicate KeptChar(c: char) {
    KeptByte(c as int)
  }

  function HexDigit(d: nat): char
    requires d < 16
  {
    if d < 10 then ('0' as int + d) as char else ('A' as int + d - 10) as char
  }

  function EncodeByte(b: nat): (r: string)
    requires b < 0x100
    ensures '&' !in r && '=' !in r
  {
    if KeptByte(b) then [b as char]
    else if b == 0x20 then "+"
    else ['%', HexDigit(b / 16), HexDigit(b % 16)]
  }

  function EncodeBytes(bs: seq<nat>): (r: string)
    requires forall k :: 0 <= k < |bs| ==> bs[k] < 0x100
    ensures '&' !in r && '=' !in r
  {
    if bs == [] then "" else EncodeByte(bs[0]) + EncodeBytes(bs[1..])
  }

  /** The serialisation of one name or value. */
  function Encode(s: string): (r: string)
    ensures '&' !in r && '=' !in r
  {
    if s == [] then "" else EncodeBytes(Utf8(s[0])) + Encode(s[1..])
  }

  /** Text made only of kept characters is serialised unchanged. */
  lemma {:induction false} EncodeKept(s: string)
    requires forall k :: 0 <= k < |s| ==> KeptChar(s[k])
    ensures Encode(s) == s
  {
    if s != [] {
      EncodeKept(s[1..]);
      assert EncodeBytes(Utf8(s[0])) == [s[0]];
      assert s == [s[0]] + s[1..];
    }
  }

  /** A rendered integer (digits and a leading minus sign) is serialised unchanged. */
  lemma EncodeInt(n: int)
    ensures Encode(IntToString(n)) == IntToString(n)
  {
    EncodeKept(IntToString(n));
  }

  /** `name=value` with both parts serialised. */
  function EncodePair(p: Param): (r: string)
    ensures '&' !in r
  {
    Encode(p.name) + "=" + Encode(p.value)
  }

  function EncodePairs(ps: seq<Param>): (r: seq<string>)
    ensures |r| == |ps|
    ensures forall k :: 0 <= k < |ps| ==> r[k] == EncodePair(ps[k])
  {
    if ps == [] then [] else [EncodePair(ps[0])] + EncodePairs(ps[1..])
  }

  /** `params.toString()` */
  function Serialize(ps: seq<Param>): string {
    Join(EncodePairs(ps), '&')
  }

  /** A query with at least one parameter splits on `&` back into its serialised pairs, in order. */
  lemma SerializeSplits(ps: seq<Param>)
    requires |ps| >= 1
    ensures Split(Serialize(ps), '&') == EncodePairs(ps)
  {
    SplitJoin(EncodePairs(ps), '&');
  }

  /** Every parameter contributes at least its `=`, so a query with a parameter is never empty. */
  lemma SerializeNonEmpty(ps: seq<Param>)
    requires |ps| >= 1
    ensures Serialize(ps) != ""
  {
    SerializeSplits(ps);
  }
}

/** The URL helpers the routes and the auth gate lean on: `encodeURIComponent`
    (UTF-8 then percent-encoding of every character outside the unreserved set),
    percent-decoding, and the `key=value&...` query strings that `URLSearchParams`
    reads and writes, with its `get` and `set` operations. */
module Uri {
  import opened Common

  // ---------------------------------------------------------------- UTF-8

  /** Unicode scalar values: what a Dafny `char` holds. */
  predicate Scalar(cp: int)
  {
    0 <= cp < 0xD800 || 0xE000 <= cp < 0x11_0000
  }

  /** Number of UTF-8 bytes needed for a code point. */
  function Utf8Len(cp: nat): nat
  {
    if cp < 0x80 then 1 else if cp < 0x800 then 2 else if cp < 0x1_0000 then 3 else 4
  }

  /** UTF-8 encoding of one character. */
  function Utf8(c: char): (bs: seq<nat>)
    ensures |bs| == Utf8Len(c as int)
    ensures forall i :: 0 <= i < |bs| ==> bs[i] < 256
  {
    var cp := c as int;
    if cp < 0x80 then [cp]
    else if cp < 0x800 then [0xC0 + cp / 64, 0x80 + cp % 64]
    else if cp < 0x1_0000 then [0xE0 + cp / 4096, 0x80 + (cp / 64) % 64, 0x80 + cp % 64]
    else [0xF0 + cp / 262144, 0x80 + (cp / 4096) % 64, 0x80 + (cp / 64) % 64, 0x80 + cp % 64]
  }

  function Utf8String(s: string): seq<nat>
  {
    if s == [] then [] else Utf8(s[0]) + Utf8String(s[1..])
  }

  /** Length of the sequence a lead byte announces; 0 for a byte that cannot lead. */
  function LeadLength(b: nat): nat
  {
    if b < 0x80 then 1
    else if 0xC0 <= b < 0xE0 then 2
    else if 0xE0 <= b < 0xF0 then 3
    else if 0xF0 <= b < 0xF8 then 4
    else 0
  }

  predicate Continuation(b: nat)
  {
    0x80 <= b < 0xC0
  }

  /** The code point of a well-shaped sequence of one to four bytes. */
  function CodePoint(bs: seq<nat>): int
    requires 1 <= |bs| <= 4
  {
    if |bs| == 1 then bs[0]
    else if |bs| == 2 then (bs[0] as int - 0xC0) * 64 + (bs[1] as int - 0x80)
    else if |bs| == 3 then
      (bs[0] as int - 0xE0) * 4096 + (bs[1] as int - 0x80) * 64 + (bs[2] as int - 0x80)
    else
      (bs[0] as int - 0xF0) * 262144 + (bs[1] as int - 0x80) * 4096 +
      (bs[2] as int - 0x80) * 64 + (bs[3] as int - 0x80)
  }

  /** Strict UTF-8 decoding: truncated, overlong, surrogate and out-of-range
      sequences are refused. */
  function Utf8Decode(bs: seq<nat>): Option<string>
    decreases |bs|
  {
    if bs == [] then Some([])
    else
      var n := LeadLength(bs[0]);
      if n == 0 || |bs| < n || exists j :: 1 <= j < n && !Continuation(bs[j]) then None
      else
        var cp := CodePoint(bs[..n]);
        if !Scalar(cp) || Utf8Len(cp) != n then None
        else
          match Utf8Decode(bs[n..])
          case None => None
          case Some(rest) => Some([cp as char] + rest)
  }

  lemma Utf8OfChar(c: char)
    ensures var bs := Utf8(c);
      LeadLength(bs[0]) == |bs| &&
      (forall j :: 1 <= j < |bs| ==> Continuation(bs[j])) &&
      CodePoint(bs) == c as int
  {
    var cp := c as int;
    if cp >= 0x800 {
      assert cp == (cp / 64) * 64 + cp % 64;
      assert cp / 64 == (cp / 4096) * 64 + (cp / 64) % 64;
      if cp >= 0x1_0000 {
        assert cp / 4096 == (cp / 262144) * 64 + (cp / 4096) % 64;
      }
    }
  }

  /** Decoding undoes the encoding of the first character. */
  lemma Utf8DecodeChar(c: char, rest: seq<nat>)
    ensures Utf8Decode(Utf8(c) + rest) ==
      match Utf8Decode(rest)
      case None => None
      case Some(t) => Some([c] + t)
  {
    var bs := Utf8(c);
    var all := bs + rest;
    Utf8OfChar(c);
    assert all[..|bs|] == bs;
    assert all[|bs|..] == rest;
    assert forall j :: 1 <= j < |bs| ==> all[j] == bs[j];
  }

  /** UTF-8 decoding is the inverse of UTF-8 encoding. */
  lemma {:induction false} Utf8RoundTrip(s: string)
    ensures Utf8Decode(Utf8String(s)) == Some(s)
  {
    if s != [] {
      Utf8RoundTrip(s[1..]);
      Utf8DecodeChar(s[0], Utf8String(s[1..]));
      assert [s[0]] + s[1..] == s;
    }
  }

  // ------------------------------------------------------- percent-coding

  /** The characters `encodeURIComponent` leaves as they are. */
  predicate Unreserved(c: char)
  {
    ('A' <= c <= 'Z') || ('a' <= c <= 'z') || ('0' <= c <= '9') ||
    c == '-' || c == '_' || c == '.' || c == '!' || c == '~' || c == '*' ||
    c == '\'' || c == '(' || c == ')'
  }

  function HexDigit(n: nat): (c: char)
    requires n < 16
  {
    if n < 10 then ('0' as int + n) as char else ('A' as int + n - 10) as char
  }

  predicate IsHex(c: char)
  {
    ('0' <= c <= '9') || ('A' <= c <= 'F') || ('a' <= c <= 'f')
  }

  function HexValue(c: char): (n: nat)
    requires IsHex(c)
    ensures n < 16
  {
    if '0' <= c <= '9' then c as int - '0' as int
    else if 'A' <= c <= 'F' then c as int - 'A' as int + 10
    else c as int - 'a' as int + 10
  }

  lemma HexDigitValue(n: nat)
    requires n < 16
    ensures IsHex(HexDigit(n)) && HexValue(HexDigit(n)) == n
  {
  }

  /** `%XY` for one byte, upper-case hexadecimal as `encodeURIComponent` writes it. */
  function PercentByte(b: nat): string
    requires b < 256
  {
    ['%', HexDigit(b / 16), HexDigit(b % 16)]
  }

  function PercentBytes(bs: seq<nat>): string
    requires forall i :: 0 <= i < |bs| ==> bs[i] < 256
  {
    if bs == [] then [] else PercentByte(bs[0]) + PercentBytes(bs[1..])
  }

  function EncodeChar(c: char): string
  {
    if Unreserved(c) then [c] else PercentBytes(Utf8(c))
  }

  /** `encodeURIComponent(s)`. */
  function Encode(s: string): string
  {
    if s == [] then [] else EncodeChar(s[0]) + Encode(s[1..])
  }

  /** The bytes a percent-encoded string stands for: each `%XY` is one byte,
      every other character contributes its UTF-8 bytes. */
  function Bytes(t: string): seq<nat>
  {
    if t == [] then []
    else if |t| >= 3 && t[0] == '%' && IsHex(t[1]) && IsHex(t[2]) then
      [HexValue(t[1]) * 16 + HexValue(t[2])] + Bytes(t[3..])
    else Utf8(t[0]) + Bytes(t[1..])
  }

  /** Percent-decoding followed by strict UTF-8 decoding (`decodeURIComponent`). */
  function Decode(t: string): Option<string>
  {
    Utf8Decode(Bytes(t))
  }

  lemma BytesOfPercentByte(b: nat, tail: string)
    requires b < 256
    ensures Bytes(PercentByte(b) + tail) == [b] + Bytes(tail)
  {
    HexDigitValue(b / 16);
    HexDigitValue(b % 16);
    var t := PercentByte(b) + tail;
    assert t[0] == '%' && t[1] == HexDigit(b / 16) && t[2] == HexDigit(b % 16);
    assert t[3..] == tail;
    assert b == (b / 16) * 16 + b % 16;
  }

  lemma {:induction false} BytesOfPercentBytes(bs: seq<nat>, rest: string)
    requires forall i :: 0 <= i < |bs| ==> bs[i] < 256
    ensures Bytes(PercentBytes(bs) + rest) == bs + Bytes(rest)
  {
    if bs != [] {
      var tail := PercentBytes(bs[1..]) + rest;
      assert PercentBytes(bs) + rest == PercentByte(bs[0]) + tail;
      BytesOfPercentByte(bs[0], tail);
      assert Bytes(PercentBytes(bs) + rest) == [bs[0]] + Bytes(tail);
      BytesOfPercentBytes(bs[1..], rest);
      assert Bytes(tail) == bs[1..] + Bytes(rest);
      assert [bs[0]] + (bs[1..] + Bytes(rest)) == bs + Bytes(rest);
    } else {
      assert PercentBytes(bs) + rest == rest;
      assert bs + Bytes(rest) == Bytes(rest);
    }
  }

  lemma BytesOfEncodeChar(c: char, rest: string)
    ensures Bytes(EncodeChar(c) + rest) == Utf8(c) + Bytes(rest)
  {
    if Unreserved(c) {
      assert ([c] + rest)[1..] == rest;
    } else {
      BytesOfPercentBytes(Utf8(c), rest);
    }
  }

  lemma {:induction false} BytesOfEncode(s: string)
    ensures Bytes(Encode(s)) == Utf8String(s)
  {
    if s != [] {
      BytesOfEncode(s[1..]);
      BytesOfEncodeChar(s[0], Encode(s[1..]));
    }
  }

  /** `decodeURIComponent(encodeURIComponent(s)) == s`. */
  lemma DecodeEncode(s: string)
    ensures Decode(Encode(s)) == Some(s)
  {
    BytesOfEncode(s);
    Utf8RoundTrip(s);
  }

  /** Every character `encodeURIComponent` emits is unreserved or part of a
      `%XY` escape, so the result holds none of the query delimiters. */
  lemma {:induction false} EncodeAlphabet(s: string)
    ensures forall i :: 0 <= i < |Encode(s)| ==> Unreserved(Encode(s)[i]) || Encode(s)[i] == '%' || IsHex(Encode(s)[i])
  {
    if s != [] {
      EncodeAlphabet(s[1..]);
      var c := s[0];
      if !Unreserved(c) {
        PercentBytesAlphabet(Utf8(c));
      }
      var e := EncodeChar(c);
      assert Encode(s) == e + Encode(s[1..]);
      forall i | 0 <= i < |Encode(s)|
        ensures Unreserved(Encode(s)[i]) || Encode(s)[i] == '%' || IsHex(Encode(s)[i])
      {
        if i >= |e| {
          assert Encode(s)[i] == Encode(s[1..])[i - |e|];
        }
      }
    }
  }

  lemma {:induction false} PercentBytesAlphabet(bs: seq<nat>)
    requires forall i :: 0 <= i < |bs| ==> bs[i] < 256
    ensures forall i :: 0 <= i < |PercentBytes(bs)| ==> PercentBytes(bs)[i] == '%' || IsHex(PercentBytes(bs)[i])
  {
    if bs != [] {
      PercentBytesAlphabet(bs[1..]);
      HexDigitValue(bs[0] / 16);
      HexDigitValue(bs[0] % 16);
      var p := PercentByte(bs[0]);
      assert PercentBytes(bs) == p + PercentBytes(bs[1..]);
      forall i | 0 <= i < |PercentBytes(bs)|
        ensures PercentBytes(bs)[i] == '%' || IsHex(PercentBytes(bs)[i])
      {
        if i >= 3 {
          assert PercentBytes(bs)[i] == PercentBytes(bs[1..])[i - 3];
        }
      }
    }
  }

  /** No `&`, `=`, `+`, `#`, `?` or `/` survives encoding. */
  lemma EncodeHasNoDelimiters(s: string)
    ensures '&' !in Encode(s) && '=' !in Encode(s) && '+' !in Encode(s)
    ensures '#' !in Encode(s) && '?' !in Encode(s) && '/' !in Encode(s)
  {
    EncodeAlphabet(s);
  }

  // ---------------------------------------------------------- query strings

  type Params = seq<(string, string)>

  /** `URLSearchParams.get(k)`: the value of the first pair named `k`. */
  function Get(ps: Params, k: string): (r: Option<string>)
    ensures r.None? <==> forall i :: 0 <= i < |ps| ==> ps[i].0 != k
    ensures r.Some? ==> exists i :: 0 <= i < |ps| && ps[i] == (k, r.value)
  {
    if ps == [] then None
    else if ps[0].0 == k then Some(ps[0].1)
    else
      var r := Get(ps[1..], k);
      assert forall i :: 1 <= i < |ps| ==> ps[i] == ps[1..][i - 1];
      r
  }

  /** Every value stored under `k`, in order (`URLSearchParams.getAll(k)`). */
  function GetAll(ps: Params, k: string): seq<string>
  {
    if ps == [] then []
    else (if ps[0].0 == k then [ps[0].1] else []) + GetAll(ps[1..], k)
  }

  function RemoveKey(ps: Params, k: string): Params
  {
    if ps == [] then []
    else (if ps[0].0 == k then [] else [ps[0]]) + RemoveKey(ps[1..], k)
  }

  /** `URLSearchParams.set(k, v)`: the first pair named `k` takes the value `v`
      and the other pairs named `k` are dropped; with no such pair, `(k, v)`
      is appended. */
  function Set(ps: Params, k: string, v: string): Params
  {
    if ps == [] then [(k, v)]
    else if ps[0].0 == k then [(k, v)] + RemoveKey(ps[1..], k)
    else [ps[0]] + Set(ps[1..], k, v)
  }

  lemma {:induction false} GetAllRemoveKey(ps: Params, k: string, k': string)
    ensures GetAll(RemoveKey(ps, k), k') == if k' == k then [] else GetAll(ps, k')
  {
    if ps != [] {
      GetAllRemoveKey(ps[1..], k, k');
      var head := if ps[0].0 == k then [] else [ps[0]];
      GetAllAppend(head, RemoveKey(ps[1..], k), k');
    }
  }

  lemma {:induction false} GetAllAppend(a: Params, b: Params, k: string)
    ensures GetAll(a + b, k) == GetAll(a, k) + GetAll(b, k)
  {
    if a != [] {
      assert (a + b)[0] == a[0];
      assert (a + b)[1..] == a[1..] + b;
      GetAllAppend(a[1..], b, k);
    } else {
      assert a + b == b;
    }
  }

  /** After `set(k, v)` the key `k` holds exactly `v`, and every other key
      keeps all its values in their order. */
  lemma {:induction false} SetValues(ps: Params, k: string, v: string, k': string)
    ensures GetAll(Set(ps, k, v), k) == [v]
    ensures k' != k ==> GetAll(Set(ps, k, v), k') == GetAll(ps, k')
  {
    if ps == [] {
    } else if ps[0].0 == k {
      GetAllRemoveKey(ps[1..], k, k);
      GetAllRemoveKey(ps[1..], k, k');
      GetAllAppend([(k, v)], RemoveKey(ps[1..], k), k);
      GetAllAppend([(k, v)], RemoveKey(ps[1..], k), k');
    } else {
      SetValues(ps[1..], k, v, k');
      GetAllAppend([ps[0]], Set(ps[1..], k, v), k);
      GetAllAppend([ps[0]], Set(ps[1..], k, v), k');
    }
  }

  lemma GetFromGetAll(ps: Params, k: string)
    ensures Get(ps, k) == if GetAll(ps, k) == [] then None else Some(GetAll(ps, k)[0])
  {
    if ps != [] {
      GetFromGetAll(ps[1..], k);
    }
  }

  /** The serialisation `k1=v1&k2=v2...`, each name and value percent-encoded. */
  function Serialize(ps: Params): string
  {
    if ps == [] then ""
    else if |ps| == 1 then Encode(ps[0].0) + "=" + Encode(ps[0].1)
    else Encode(ps[0].0) + "=" + Encode(ps[0].1) + "&" + Serialize(ps[1..])
  }

  /** Splitting at the first occurrence of `c`: the text before and, if `c`
      occurs, the text after. */
  function SplitAt(s: string, c: char): (r: (string, Option<string>))
    ensures c !in r.0
    ensures r.1.None? ==> r.0 == s
    ensures r.1.Some? ==> s == r.0 + [c] + r.1.value
  {
    if s == [] then ("", None)
    else if s[0] == c then ("", Some(s[1..]))
    else
      var (a, b) := SplitAt(s[1..], c);
      ([s[0]] + a, b)
  }

  lemma SplitAtUnique(a: string, c: char, rest: Option<string>)
    requires c !in a
    ensures SplitAt(a + (if rest.Some? then [c] + rest.value else []), c) == (a, rest)
  {
    if a != [] {
      var t := a + (if rest.Some? then [c] + rest.value else []);
      assert t[0] == a[0] && t[0] != c;
      assert t[1..] == a[1..] + (if rest.Some? then [c] + rest.value else []);
      SplitAtUnique(a[1..], c, rest);
      assert [a[0]] + a[1..] == a;
    } else if rest.Some? {
      var t := [c] + rest.value;
      assert a + t == t && t[1..] == rest.value;
    }
  }

  /** `+` stands for a space in a form-encoded query. */
  function PlusToSpace(s: string): (r: string)
    ensures |r| == |s|
  {
    if s == [] then [] else [if s[0] == '+' then ' ' else s[0]] + PlusToSpace(s[1..])
  }

  lemma PlusToSpaceNoPlus(s: string)
    requires '+' !in s
    ensures PlusToSpace(s) == s
  {
    if s != [] {
      PlusToSpaceNoPlus(s[1..]);
      assert [s[0]] + s[1..] == s;
    }
  }

  /** Decoding of one name or value as `URLSearchParams` does it. */
  function DecodeComponent(t: string): string
  {
    var u := PlusToSpace(t);
    match Decode(u)
    case Some(s) => s
    case None => u
  }

  function ParsePair(seg: string): (string, string)
  {
    var (name, value) := SplitAt(seg, '=');
    (DecodeComponent(name), DecodeComponent(if value.Some? then value.value else ""))
  }

  /** `new URLSearchParams(q)`: split at `&`, skip empty segments, split each
      at its first `=`, decode both halves. */
  function Parse(q: string): Params
    decreases |q|
  {
    var (seg, rest) := SplitAt(q, '&');
    var head := if seg == "" then [] else [ParsePair(seg)];
    match rest
    case None => head
    case Some(r) => head + Parse(r)
  }

  lemma DecodeComponentEncode(s: string)
    ensures DecodeComponent(Encode(s)) == s
  {
    EncodeHasNoDelimiters(s);
    PlusToSpaceNoPlus(Encode(s));
    DecodeEncode(s);
  }

  /** The text before the first `&` of a serialised pair is the pair itself. */
  lemma ParsePairEncoded(k: string, v: string)
    ensures ParsePair(Encode(k) + "=" + Encode(v)) == (k, v)
  {
    EncodeHasNoDelimiters(k);
    SplitAtUnique(Encode(k), '=', Some(Encode(v)));
    assert Encode(k) + "=" + Encode(v) == Encode(k) + ['='] + Encode(v);
    DecodeComponentEncode(k);
    DecodeComponentEncode(v);
  }

  lemma ParseLastPair(k: string, v: string)
    ensures Parse(Encode(k) + "=" + Encode(v)) == [(k, v)]
  {
    EncodeHasNoDelimiters(k);
    EncodeHasNoDelimiters(v);
    var seg := Encode(k) + "=" + Encode(v);
    assert '&' !in seg;
    SplitAtUnique(seg, '&', None);
    assert seg + [] == seg;
    ParsePairEncoded(k, v);
  }

  lemma ParsePairThen(k: string, v: string, r: string)
    ensures Parse(Encode(k) + "=" + Encode(v) + "&" + r) == [(k, v)] + Parse(r)
  {
    EncodeHasNoDelimiters(k);
    EncodeHasNoDelimiters(v);
    var seg := Encode(k) + "=" + Encode(v);
    assert '&' !in seg;
    SplitAtUnique(seg, '&', Some(r));
    assert seg + ['&'] + r == seg + "&" + r;
    ParsePairEncoded(k, v);
  }

  /** Parsing a serialised query gives back every pair, in order. */
  lemma {:induction false} ParseSerialize(ps: Params)
    ensures Parse(Serialize(ps)) == ps
  {
    if ps == [] {
      assert SplitAt("", '&') == ("", None);
    } else if |ps| == 1 {
      var (k, v) := ps[0];
      ParseLastPair(k, v);
    } else {
      var (k, v) := ps[0];
      var r := Serialize(ps[1..]);
      assert Serialize(ps) == Encode(k) + "=" + Encode(v) + "&" + r;
      ParseSerialize(ps[1..]);
      ParsePairThen(k, v, r);
      assert [(k, v)] + ps[1..] == ps;
    }
  }
}

/** Session ids: "sess_", the minting node's sanitized id, "_", and twelve random bytes in hex. */
module SessionIds {
  import opened Results

  type byte = x: int | 0 <= x < 256

  /** The characters a node id keeps. */
  predicate Plain(c: char) {
    'A' <= c <= 'Z' || 'a' <= c <= 'z' || '0' <= c <= '9' || c == '_' || c == '-'
  }

  function Sanitize(id: string): string {
    if id == "" then "" else (if Plain(id[0]) then [id[0]] else "") + Sanitize(id[1..])
  }

  function HexDigit(n: int): char
    requires 0 <= n < 16
  {
    "0123456789abcdef"[n]
  }

  function HexEncode(bytes: seq<byte>): string {
    if bytes == [] then "" else [HexDigit(bytes[0] / 16), HexDigit(bytes[0] % 16)] + HexEncode(bytes[1..])
  }

  /** The route prefix of a node's sessions. */
  function Prefix(nodeId: string): string {
    "sess_" + Sanitize(nodeId) + "_"
  }

  function SessionId(nodeId: string, bytes: seq<byte>): string {
    Prefix(nodeId) + HexEncode(bytes)
  }

  /** A node claims every session id that starts with its prefix. */
  predicate Matches(nodeId: string, sessionId: string) {
    Prefix(nodeId) <= sessionId
  }

  /** `n`'s sanitized id is `m`'s, or extends it at an underscore. */
  predicate Related(m: string, n: string) {
    Sanitize(m) == Sanitize(n) || Sanitize(m) + "_" <= Sanitize(n)
  }

  lemma {:induction false} HexHasNoUnderscore(bytes: seq<byte>)
    ensures |HexEncode(bytes)| == 2 * |bytes|
    ensures forall i :: 0 <= i < |HexEncode(bytes)| ==> HexEncode(bytes)[i] != '_'
  {
    if bytes != [] {
      HexHasNoUnderscore(bytes[1..]);
    }
  }

  lemma {:induction false} HexInjective(a: seq<byte>, b: seq<byte>)
    requires HexEncode(a) == HexEncode(b)
    ensures a == b
  {
    HexHasNoUnderscore(a);
    HexHasNoUnderscore(b);
    if a != [] {
      var x, y := HexEncode(a), HexEncode(b);
      assert x[2..] == HexEncode(a[1..]) && y[2..] == HexEncode(b[1..]);
      HexInjective(a[1..], b[1..]);
      assert x[0] == y[0] && x[1] == y[1];
      DigitInjective(a[0] / 16, b[0] / 16);
      DigitInjective(a[0] % 16, b[0] % 16);
    }
  }

  lemma DigitInjective(i: int, j: int)
    requires 0 <= i < 16 && 0 <= j < 16 && HexDigit(i) == HexDigit(j)
    ensures i == j
  {
  }

  /** Sanitizing drops exactly the other characters, keeping order; doing it twice changes nothing more. */
  lemma {:induction false} SanitizeKeepsPlain(id: string)
    ensures forall i :: 0 <= i < |Sanitize(id)| ==> Plain(Sanitize(id)[i])
    ensures Sanitize(Sanitize(id)) == Sanitize(id)
    ensures (forall i :: 0 <= i < |id| ==> Plain(id[i])) ==> Sanitize(id) == id
  {
    if id != "" {
      SanitizeKeepsPlain(id[1..]);
      if Plain(id[0]) {
        assert Sanitize(id)[1..] == Sanitize(id[1..]);
      } else {
        assert Sanitize(id) == Sanitize(id[1..]);
      }
    }
  }

  /** The characters that survive, one by one: letters, digits, underscores and dashes. */
  lemma SanitizeExact(a: string, c: char, b: string)
    ensures var kept := 'A' <= c <= 'Z' || 'a' <= c <= 'z' || '0' <= c <= '9' || c == '_' || c == '-';
            Sanitize(a + [c] + b) == Sanitize(a) + (if kept then [c] else "") + Sanitize(b)
    ensures Sanitize("") == ""
  {
    SanitizeJoins(a + [c], b);
    SanitizeJoins(a, [c]);
    assert [c][1..] == "";
  }

  lemma {:induction false} SanitizeJoins(a: string, b: string)
    ensures Sanitize(a + b) == Sanitize(a) + Sanitize(b)
  {
    if a == "" {
      assert a + b == b && Sanitize(a) == "";
    } else {
      var head := if Plain(a[0]) then [a[0]] else "";
      assert (a + b)[1..] == a[1..] + b && (a + b)[0] == a[0];
      SanitizeJoins(a[1..], b);
      Regroup(head, Sanitize(a[1..]), Sanitize(b));
    }
  }

  lemma Regroup(x: string, y: string, z: string)
    ensures x + (y + z) == x + y + z
  {
  }

  /** The value of a lower-case hexadecimal digit. */
  function DigitValue(c: char): Option<int> {
    if '0' <= c <= '9' then Some(c as int - '0' as int)
    else if 'a' <= c <= 'f' then Some(c as int - 'a' as int + 10)
    else None
  }

  /** Reading two hexadecimal digits per byte. */
  function HexDecode(s: string): Option<seq<int>> {
    if s == "" then Some([])
    else if |s| == 1 then None
    else
      var (high, low, rest) := (DigitValue(s[0]), DigitValue(s[1]), HexDecode(s[2..]));
      if high.None? || low.None? || rest.None? then None else Some([16 * high.value + low.value] + rest.value)
  }

  function Values(bytes: seq<byte>): seq<int> {
    seq(|bytes|, i requires 0 <= i < |bytes| => bytes[i] as int)
  }

  lemma DigitReadsBack(n: int)
    requires 0 <= n < 16
    ensures DigitValue(HexDigit(n)) == Some(n)
  {
  }

  lemma ByteReadsBack(b: byte, rest: string)
    requires HexDecode(rest).Some?
    ensures HexDecode([HexDigit(b / 16), HexDigit(b % 16)] + rest) == Some([b as int] + HexDecode(rest).value)
  {
    var s := [HexDigit(b / 16), HexDigit(b % 16)] + rest;
    DigitReadsBack(b / 16);
    DigitReadsBack(b % 16);
    assert s[2..] == rest && 16 * (b / 16) + b % 16 == b;
  }

  lemma {:induction false} HexReadsBack(bytes: seq<byte>)
    ensures HexDecode(HexEncode(bytes)) == Some(Values(bytes))
  {
    if bytes == [] {
      assert Values(bytes) == [];
    } else {
      HexReadsBack(bytes[1..]);
      ByteReadsBack(bytes[0], HexEncode(bytes[1..]));
      assert Values(bytes) == [bytes[0] as int] + Values(bytes[1..]);
    }
  }

  /** A session id is "sess_", the node's remaining characters, "_", and the random bytes in hexadecimal. */
  lemma SessionIdShape(nodeId: string, bytes: seq<byte>)
    ensures var s, k := SessionId(nodeId, bytes), 5 + |Sanitize(nodeId)|;
            && |s| == k + 1 + 2 * |bytes|
            && s[..5] == "sess_" && s[5..k] == Sanitize(nodeId) && s[k] == '_'
            && HexDecode(s[k + 1..]) == Some(Values(bytes))
  {
    HexHasNoUnderscore(bytes);
    HexReadsBack(bytes);
    var s, k := SessionId(nodeId, bytes), 5 + |Sanitize(nodeId)|;
    assert |Prefix(nodeId)| == k + 1 && Prefix(nodeId)[..5] == "sess_" && Prefix(nodeId)[5..k] == Sanitize(nodeId);
    assert s[..k + 1] == Prefix(nodeId) && s[k + 1..] == HexEncode(bytes);
    assert s[..5] == s[..k + 1][..5] && s[5..k] == s[..k + 1][5..k];
  }

  /** Two prefixes of one string: the shorter is a prefix of the longer. */
  lemma PrefixesCompare(a: string, b: string, s: string)
    requires a <= s && b <= s && |a| <= |b|
    ensures a <= b
  {
    assert a == s[..|a|] && b == s[..|b|];
  }

  lemma Unprefixed(m: string, n: string)
    requires Prefix(m) <= Prefix(n)
    ensures Related(m, n)
  {
    var a, b := Sanitize(m), Sanitize(n);
    assert Prefix(m)[5..] == a + "_" && Prefix(n)[5..] == b + "_";
    assert a + "_" <= b + "_";
    if |a| == |b| {
      assert (a + "_")[..|a|] == a && (b + "_")[..|b|] == b;
    } else {
      assert (b + "_")[..|b|] == b;
      PrefixesCompare(a + "_", b, b + "_");
    }
  }

  lemma PrefixedIf(m: string, n: string)
    requires Related(m, n)
    ensures Prefix(m) <= Prefix(n)
  {
    var a, b := Sanitize(m), Sanitize(n);
    if a != b {
      assert b[..|a| + 1] == a + "_";
      assert Prefix(n)[..|Prefix(m)|] == "sess_" + (b + "_")[..|a| + 1];
    }
  }

  /** A longer prefix would have its closing underscore inside the hex digits. */
  lemma LongerPrefixMisses(m: string, n: string, bytes: seq<byte>)
    requires |Prefix(m)| > |Prefix(n)|
    ensures !Matches(m, SessionId(n, bytes))
  {
    HexHasNoUnderscore(bytes);
    var s, k := SessionId(n, bytes), |Prefix(m)| - 1;
    assert Prefix(m)[k] == '_';
    if k < |s| {
      assert s[k] == HexEncode(bytes)[k - |Prefix(n)|];
    }
  }

  /** The exact set of sessions a node's prefix matches, whatever the random part. */
  lemma RoutingExact(m: string, n: string, bytes: seq<byte>)
    ensures Matches(m, SessionId(n, bytes)) <==> Related(m, n)
  {
    var s := SessionId(n, bytes);
    assert Prefix(n) <= s;
    if Related(m, n) {
      PrefixedIf(m, n);
    } else if |Prefix(m)| > |Prefix(n)| {
      LongerPrefixMisses(m, n, bytes);
    } else if Matches(m, s) {
      PrefixesCompare(Prefix(m), Prefix(n), s);
      Unprefixed(m, n);
      assert false;
    }
  }

  /** Two nodes that both match one session id, of whatever shape, are related. */
  lemma RivalsAreRelated(m: string, n: string, sessionId: string)
    requires Matches(m, sessionId) && Matches(n, sessionId)
    ensures Related(m, n) || Related(n, m)
  {
    if |Prefix(m)| <= |Prefix(n)| {
      PrefixesCompare(Prefix(m), Prefix(n), sessionId);
      Unprefixed(m, n);
    } else {
      PrefixesCompare(Prefix(n), Prefix(m), sessionId);
      Unprefixed(n, m);
    }
  }

  /** Fresh random bytes make a fresh id; equal ids of two nodes mean equal sanitized names and equal bytes. */
  lemma IdsAreDistinct(m: string, a: seq<byte>, n: string, b: seq<byte>)
    requires |a| == |b| && SessionId(m, a) == SessionId(n, b)
    ensures Sanitize(m) == Sanitize(n) && a == b
  {
    HexHasNoUnderscore(a);
    HexHasNoUnderscore(b);
    var s := SessionId(m, a);
    assert s[..|Prefix(m)|] == Prefix(m) && SessionId(n, b)[..|Prefix(n)|] == Prefix(n);
    assert Prefix(m)[5..|Prefix(m)| - 1] == Sanitize(m) && Prefix(n)[5..|Prefix(n)| - 1] == Sanitize(n);
    assert s[|Prefix(m)|..] == HexEncode(a) && SessionId(n, b)[|Prefix(n)|..] == HexEncode(b);
    HexInjective(a, b);
  }
}

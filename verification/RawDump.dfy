/**
 * The reader of strongSwan's raw dumps. It does not parse the nesting: it
 * turns the structural characters into blanks and looks at the tokens. The
 * results say that this loses nothing that matters.
 */
module RawDump {
  import opened Arithmetic
  import opened Results

  const WORD64: nat := 0x1_0000_0000_0000_0000

  // ---- tokens ----

  /** Unicode white space, as Go's unicode.IsSpace has it. */
  predicate IsSpace(c: char) {
    var n := c as int;
    || 9 <= n <= 13 || n == 32 || n == 0x85 || n == 0xA0 || n == 0x1680 || 0x2000 <= n <= 0x200a
    || n == 0x2028 || n == 0x2029 || n == 0x202f || n == 0x205f || n == 0x3000
  }

  predicate Structural(c: char) {
    c == '{' || c == '}' || c == '[' || c == ']' || c == ',' || c == '\n'
  }

  predicate Separates(c: char) {
    Structural(c) || IsSpace(c)
  }

  function Blanked(s: string): (r: string)
    ensures |r| == |s|
    ensures forall i :: 0 <= i < |s| ==> r[i] == if Structural(s[i]) then ' ' else s[i]
  {
    seq(|s|, i requires 0 <= i < |s| => if Structural(s[i]) then ' ' else s[i])
  }

  /** The longest prefix without white space. */
  function Word(s: string): (w: string)
    ensures w <= s
    ensures s != "" && !IsSpace(s[0]) ==> w != ""
  {
    if s == "" || IsSpace(s[0]) then "" else [s[0]] + Word(s[1..])
  }

  /** The maximal runs of characters that are not white space. */
  function Fields(s: string): seq<string>
    decreases |s|
  {
    if s == "" then []
    else if IsSpace(s[0]) then Fields(s[1..])
    else [Word(s)] + Fields(s[|Word(s)|..])
  }

  function Tokens(raw: string): seq<string> {
    Fields(Blanked(raw))
  }

  // ---- the reader ----

  /** bytes-in and bytes-out modulo 2^64, whether some state is ESTABLISHED, and the first non-empty remote-host. */
  datatype Stats = Stats(bytesIn: nat, bytesOut: nat, established: bool, remote: string)

  predicate AllDigits(s: string) {
    forall i :: 0 <= i < |s| ==> '0' <= s[i] <= '9'
  }

  function Decimal(s: string): nat
    requires AllDigits(s)
  {
    if s == "" then 0 else 10 * Decimal(s[..|s| - 1]) + (s[|s| - 1] as int - '0' as int)
  }

  /** A 64-bit decimal number; None where parsing it is an error. */
  function Number(s: string): Option<nat> {
    if s == "" || !AllDigits(s) || Decimal(s) >= WORD64 then None else Some(Decimal(s))
  }

  /** Key and value around the first equals sign. */
  function Cut(token: string): Option<(string, string)> {
    if token == "" then None
    else if token[0] == '=' then Some(("", token[1..]))
    else
      var r := Cut(token[1..]);
      if r.None? then None else Some(([token[0]] + r.value.0, r.value.1))
  }

  function Counted(n: nat, value: string): nat {
    if Number(value).Some? then (n + Number(value).value) % WORD64 else n
  }

  function Noted(st: Stats, key: string, value: string): Stats {
    if key == "bytes-in" then st.(bytesIn := Counted(st.bytesIn, value))
    else if key == "bytes-out" then st.(bytesOut := Counted(st.bytesOut, value))
    else if key == "state" then st.(established := st.established || value == "ESTABLISHED")
    else if key == "remote-host" then st.(remote := if st.remote == "" then value else st.remote)
    else st
  }

  function NotedToken(st: Stats, token: string): Stats {
    var cut := Cut(token);
    if cut.None? then st else Noted(st, cut.value.0, cut.value.1)
  }

  function NotedAll(st: Stats, tokens: seq<string>): Stats
    decreases |tokens|
  {
    if tokens == [] then st else NotedAll(NotedToken(st, tokens[0]), tokens[1..])
  }

  const NOTHING: Stats := Stats(0, 0, false, "")

  predicate Contains(s: string, part: string) {
    exists i :: 0 <= i <= |s| && part <= s[i..]
  }

  /** The reader gives up on a text that mentions neither an inbound counter nor a state. */
  predicate Readable(raw: string) {
    Contains(raw, "bytes-in") || Contains(raw, "state=")
  }

  function Parsed(raw: string): Option<Stats> {
    if Readable(raw) then Some(NotedAll(NOTHING, Tokens(raw))) else None
  }

  method ParseSAs(raw: string) returns (r: Option<Stats>)
    ensures r == Parsed(raw)
  {
    if !Contains(raw, "bytes-in") && !Contains(raw, "state=") {
      return None;
    }
    var bytesIn: nat, bytesOut: nat, established, remote := 0, 0, false, "";
    var tokens := Tokens(raw);
    for i := 0 to |tokens|
      invariant NotedAll(NOTHING, tokens) == NotedAll(Stats(bytesIn, bytesOut, established, remote), tokens[i..])
    {
      assert tokens[i..][1..] == tokens[i + 1..];
      var cut := Cut(tokens[i]);
      if cut.None? {
        continue;
      }
      var (key, value) := cut.value;
      match key {
        case "bytes-in" =>
          var n := Number(value);
          if n.Some? {
            bytesIn := (bytesIn + n.value) % WORD64;
          }
        case "bytes-out" =>
          var n := Number(value);
          if n.Some? {
            bytesOut := (bytesOut + n.value) % WORD64;
          }
        case "state" =>
          if value == "ESTABLISHED" {
            established := true;
          }
        case "remote-host" =>
          if remote == "" {
            remote := value;
          }
        case _ =>
      }
    }
    r := Some(Stats(bytesIn, bytesOut, established, remote));
  }

  // ---- dumps ----

  datatype Item =
    | Section(name: string, items: seq<Item>)
    | Entry(key: string, value: string)
    | List(name: string, values: seq<string>)

  predicate Clean(s: string) {
    forall i :: 0 <= i < |s| ==> !Separates(s[i])
  }

  predicate NoEquals(s: string) {
    forall i :: 0 <= i < |s| ==> s[i] != '='
  }

  /** Names and keys without equals signs, list values likewise; entry values may have them. */
  ghost predicate WellFormed(items: seq<Item>)
    decreases items
  {
    if items == [] then true
    else
      (match items[0]
       case Section(name, kids) => Clean(name) && NoEquals(name) && WellFormed(kids)
       case Entry(key, value) => Clean(key) && NoEquals(key) && Clean(value)
       case List(name, values) => Clean(name) && NoEquals(name) && AllBare(values))
      && WellFormed(items[1..])
  }

  ghost predicate AllBare(values: seq<string>) {
    forall i :: 0 <= i < |values| ==> Clean(values[i]) && NoEquals(values[i])
  }

  /** The text of a dump, with any separator of blanks and structural characters between items. */
  function Text(items: seq<Item>, sep: string): string
    decreases items
  {
    if items == [] then ""
    else
      (match items[0]
       case Section(name, kids) => name + " {" + Text(kids, sep) + "}"
       case Entry(key, value) => key + "=" + value
       case List(name, values) => name + "=[" + Joined(values) + "]")
      + sep + Text(items[1..], sep)
  }

  function Joined(values: seq<string>): string {
    if values == [] then "" else values[0] + " " + Joined(values[1..])
  }

  /** All key and value leaves, at any depth, in order. */
  function Leaves(items: seq<Item>): seq<(string, string)>
    decreases items
  {
    if items == [] then []
    else
      (match items[0]
       case Section(name, kids) => Leaves(kids)
       case Entry(key, value) => [(key, value)]
       case List(name, values) => [])
      + Leaves(items[1..])
  }

  /** The sum of the readable numbers under one key. */
  function Total(leaves: seq<(string, string)>, key: string): nat {
    if leaves == [] then 0
    else
      (if leaves[0].0 == key && Number(leaves[0].1).Some? then Number(leaves[0].1).value else 0) + Total(leaves[1..], key)
  }

  /** The first non-empty value of a key, or empty. */
  function First(leaves: seq<(string, string)>, key: string): string {
    if leaves == [] then ""
    else if leaves[0].0 == key && leaves[0].1 != "" then leaves[0].1
    else First(leaves[1..], key)
  }

  // ---- tokens of a dump ----

  /** The token sequence of a dump. */
  function Expected(items: seq<Item>): seq<string>
    decreases items
  {
    if items == [] then []
    else
      (match items[0]
       case Section(name, kids) => Bare(name) + Expected(kids)
       case Entry(key, value) => [key + "=" + value]
       case List(name, values) => [name + "="] + BareAll(values))
      + Expected(items[1..])
  }

  function Bare(s: string): seq<string> {
    if s == "" then [] else [s]
  }

  function BareAll(values: seq<string>): seq<string> {
    if values == [] then [] else Bare(values[0]) + BareAll(values[1..])
  }

  lemma {:induction false} WordOf(w: string, rest: string)
    requires w != "" && (forall i :: 0 <= i < |w| ==> !IsSpace(w[i])) && (rest == "" || IsSpace(rest[0]))
    ensures Word(w + rest) == w
  {
    assert (w + rest)[1..] == w[1..] + rest;
    if |w| > 1 {
      WordOf(w[1..], rest);
    } else {
      assert w[1..] + rest == rest;
    }
  }

  /** A word goes on as far as there is no white space, whatever comes after a boundary. */
  lemma {:induction false} WordStops(a: string, b: string)
    requires a != "" && !IsSpace(a[0]) && (b == "" || IsSpace(b[0]) || IsSpace(a[|a| - 1]))
    ensures Word(a + b) == Word(a) && |Word(a)| <= |a|
  {
    assert (a + b)[1..] == a[1..] + b;
    if |a| > 1 && !IsSpace(a[1]) {
      WordStops(a[1..], b);
    } else if |a| > 1 {
      assert Word(a[1..]) == "" && Word(a[1..] + b) == "";
    } else {
      assert a[1..] + b == b && Word(b) == "";
    }
  }

  lemma {:induction false} FieldsJoin(a: string, b: string)
    requires a == "" || b == "" || IsSpace(b[0]) || IsSpace(a[|a| - 1])
    ensures Fields(a + b) == Fields(a) + Fields(b)
    decreases |a|
  {
    if a == "" {
      assert a + b == b;
    } else if IsSpace(a[0]) {
      assert (a + b)[1..] == a[1..] + b;
      FieldsJoin(a[1..], b);
    } else {
      WordStops(a, b);
      var n := |Word(a)|;
      assert (a + b)[n..] == a[n..] + b;
      FieldsJoin(a[n..], b);
    }
  }

  lemma BlankedJoin(a: string, b: string)
    ensures Blanked(a + b) == Blanked(a) + Blanked(b)
  {
  }

  /** Tokens never run over a separator. */
  lemma TokensJoin(a: string, b: string)
    requires a == "" || b == "" || Separates(b[0]) || Separates(a[|a| - 1])
    ensures Tokens(a + b) == Tokens(a) + Tokens(b)
  {
    BlankedJoin(a, b);
    FieldsJoin(Blanked(a), Blanked(b));
  }

  lemma TokensOfClean(w: string)
    requires Clean(w)
    ensures Tokens(w) == Bare(w)
  {
    assert Blanked(w) == w;
    if w != "" {
      WordOf(w, "");
      assert w + "" == w && Fields(w[|w|..]) == [];
    }
  }

  lemma {:induction false} TokensOfSeparators(sep: string)
    requires forall i :: 0 <= i < |sep| ==> Separates(sep[i])
    ensures Tokens(sep) == []
  {
    if sep != "" {
      TokensOfSeparators(sep[1..]);
      assert Blanked(sep)[1..] == Blanked(sep[1..]);
    }
  }

  lemma {:induction false} TokensOfJoined(values: seq<string>)
    requires AllBare(values)
    ensures Tokens(Joined(values)) == BareAll(values)
  {
    if values != [] {
      var v, rest := values[0], values[1..];
      TokensOfJoined(rest);
      TokensOfClean(v);
      TokensOfSeparators(" ");
      TokensJoin(v, " ");
      TokensJoin(v + " ", Joined(rest));
    }
  }

  predicate Separator(sep: string) {
    sep != "" && forall i :: 0 <= i < |sep| ==> Separates(sep[i])
  }

  lemma TokensOfSection(name: string, inner: string)
    requires Clean(name)
    ensures Tokens(name + " {" + inner + "}") == Bare(name) + Tokens(inner)
  {
    TokensOfClean(name);
    TokensOfSeparators(" {");
    TokensOfSeparators("}");
    TokensJoin(name, " {");
    TokensJoin(name + " {", inner);
    TokensJoin(name + " {" + inner, "}");
  }

  lemma TokensOfEntry(key: string, value: string)
    requires Clean(key) && Clean(value)
    ensures Tokens(key + "=" + value) == [key + "=" + value]
  {
    TokensOfClean(key + "=" + value);
  }

  lemma ListText(name: string, joined: string)
    ensures name + "=[" + joined + "]" == (name + "=") + ("[" + (joined + "]"))
  {
  }

  lemma TokensOfList(name: string, values: seq<string>)
    requires Clean(name) && AllBare(values)
    ensures Tokens(name + "=[" + Joined(values) + "]") == [name + "="] + BareAll(values)
  {
    var head, tail := name + "=", Joined(values) + "]";
    TokensOfClean(head);
    TokensOfJoined(values);
    TokensOfSeparators("[");
    TokensOfSeparators("]");
    TokensJoin(Joined(values), "]");
    TokensJoin("[", tail);
    TokensJoin(head, "[" + tail);
    ListText(name, Joined(values));
  }

  lemma TokensThrough(item: string, sep: string, rest: string)
    requires Separator(sep)
    ensures Tokens(item + sep + rest) == Tokens(item) + Tokens(rest)
  {
    TokensOfSeparators(sep);
    TokensJoin(item, sep);
    TokensJoin(item + sep, rest);
  }

  /** The tokens of a dump are its names, entries and list values, in order, however it is laid out. */
  lemma {:induction false} TokensOfText(items: seq<Item>, sep: string)
    requires WellFormed(items) && Separator(sep)
    ensures Tokens(Text(items, sep)) == Expected(items)
    decreases items
  {
    if items != [] {
      var rest := Text(items[1..], sep);
      TokensOfText(items[1..], sep);
      match items[0]
      case Section(name, kids) =>
        TokensOfText(kids, sep);
        TokensOfSection(name, Text(kids, sep));
        TokensThrough(name + " {" + Text(kids, sep) + "}", sep, rest);
      case Entry(key, value) =>
        TokensOfEntry(key, value);
        TokensThrough(key + "=" + value, sep, rest);
      case List(name, values) =>
        TokensOfList(name, values);
        TokensThrough(name + "=[" + Joined(values) + "]", sep, rest);
    }
  }

  // ---- from tokens to totals ----

  lemma {:induction false} NotedJoin(st: Stats, a: seq<string>, b: seq<string>)
    ensures NotedAll(st, a + b) == NotedAll(NotedAll(st, a), b)
    decreases |a|
  {
    if a == [] {
      assert a + b == b;
    } else {
      assert (a + b)[1..] == a[1..] + b;
      NotedJoin(NotedToken(st, a[0]), a[1..], b);
    }
  }

  function NotedLeaves(st: Stats, leaves: seq<(string, string)>): Stats
    decreases |leaves|
  {
    if leaves == [] then st else NotedLeaves(Noted(st, leaves[0].0, leaves[0].1), leaves[1..])
  }

  lemma {:induction false} NotedLeavesJoin(st: Stats, a: seq<(string, string)>, b: seq<(string, string)>)
    ensures NotedLeaves(st, a + b) == NotedLeaves(NotedLeaves(st, a), b)
    decreases |a|
  {
    if a == [] {
      assert a + b == b;
    } else {
      assert (a + b)[1..] == a[1..] + b;
      NotedLeavesJoin(Noted(st, a[0].0, a[0].1), a[1..], b);
    }
  }

  lemma {:induction false} CutEntry(key: string, value: string)
    requires NoEquals(key)
    ensures Cut(key + "=" + value) == Some((key, value))
  {
    var t := key + "=" + value;
    if key == "" {
      assert t[1..] == value;
    } else {
      assert t[1..] == key[1..] + "=" + value && key == [key[0]] + key[1..];
      CutEntry(key[1..], value);
    }
  }

  lemma {:induction false} CutBare(s: string)
    requires NoEquals(s)
    ensures Cut(s).None?
  {
    if s != "" {
      CutBare(s[1..]);
    }
  }

  lemma BareIsIgnored(st: Stats, s: string)
    requires NoEquals(s)
    ensures NotedAll(st, Bare(s)) == st
  {
    CutBare(s);
  }

  lemma {:induction false} ListIsIgnored(st: Stats, values: seq<string>)
    requires AllBare(values)
    ensures NotedAll(st, BareAll(values)) == st
  {
    if values != [] {
      ListIsIgnored(st, values[1..]);
      BareIsIgnored(st, values[0]);
      NotedJoin(st, Bare(values[0]), BareAll(values[1..]));
    }
  }

  lemma ListNameIsIgnored(st: Stats, name: string)
    requires NoEquals(name)
    ensures NotedAll(st, [name + "="]) == st
  {
    CutEntry(name, "");
    assert name + "=" + "" == name + "=";
  }

  lemma EntryIsNoted(st: Stats, key: string, value: string)
    requires NoEquals(key)
    ensures NotedAll(st, [key + "=" + value]) == NotedLeaves(st, [(key, value)])
  {
    CutEntry(key, value);
  }

  /** Section names and lists leave no trace: what counts is the leaves. */
  lemma {:induction false} TokensMeanLeaves(st: Stats, items: seq<Item>)
    requires WellFormed(items)
    ensures NotedAll(st, Expected(items)) == NotedLeaves(st, Leaves(items))
    decreases items
  {
    if items != [] {
      var rest := items[1..];
      match items[0]
      case Section(name, kids) =>
        BareIsIgnored(st, name);
        TokensMeanLeaves(st, kids);
        NotedJoin(st, Bare(name), Expected(kids));
        TokensMeanLeaves(NotedLeaves(st, Leaves(kids)), rest);
        NotedJoin(st, Bare(name) + Expected(kids), Expected(rest));
        NotedLeavesJoin(st, Leaves(kids), Leaves(rest));
      case Entry(key, value) =>
        EntryIsNoted(st, key, value);
        TokensMeanLeaves(NotedLeaves(st, [(key, value)]), rest);
        NotedJoin(st, [key + "=" + value], Expected(rest));
        NotedLeavesJoin(st, [(key, value)], Leaves(rest));
      case List(name, values) =>
        ListNameIsIgnored(st, name);
        ListIsIgnored(st, values);
        NotedJoin(st, [name + "="], BareAll(values));
        TokensMeanLeaves(st, rest);
        NotedJoin(st, [name + "="] + BareAll(values), Expected(rest));
        assert [] + Leaves(rest) == Leaves(rest);
    }
  }

  lemma CountedTotal(n: nat, value: string, more: nat)
    requires n < WORD64
    ensures Counted(n, value) < WORD64
    ensures (Counted(n, value) + more) % WORD64
         == (n + ((if Number(value).Some? then Number(value).value else 0) + more)) % WORD64
  {
  }

  /** The totals of the leaves, modulo the counters' width. */
  lemma {:induction false} LeavesTotal(st: Stats, leaves: seq<(string, string)>)
    requires st.bytesIn < WORD64 && st.bytesOut < WORD64
    ensures NotedLeaves(st, leaves).bytesIn == (st.bytesIn + Total(leaves, "bytes-in")) % WORD64
    ensures NotedLeaves(st, leaves).bytesOut == (st.bytesOut + Total(leaves, "bytes-out")) % WORD64
    decreases |leaves|
  {
    if leaves == [] {
      ModBelow(st.bytesIn, WORD64);
      ModBelow(st.bytesOut, WORD64);
    } else {
      var (key, value) := leaves[0];
      var rest := leaves[1..];
      CountedTotal(st.bytesIn, value, Total(rest, "bytes-in"));
      CountedTotal(st.bytesOut, value, Total(rest, "bytes-out"));
      LeavesTotal(Noted(st, key, value), rest);
    }
  }

  lemma {:induction false} LeavesState(st: Stats, leaves: seq<(string, string)>)
    ensures NotedLeaves(st, leaves).established <==> st.established || ("state", "ESTABLISHED") in leaves
    ensures NotedLeaves(st, leaves).remote == if st.remote != "" then st.remote else First(leaves, "remote-host")
    decreases |leaves|
  {
    if leaves != [] {
      LeavesState(Noted(st, leaves[0].0, leaves[0].1), leaves[1..]);
      assert leaves == [leaves[0]] + leaves[1..];
    }
  }

  // ---- the result on dumps ----

  /** What a dump says, read off its leaves. */
  function Summary(items: seq<Item>): Stats {
    var leaves := Leaves(items);
    Stats(Total(leaves, "bytes-in") % WORD64, Total(leaves, "bytes-out") % WORD64,
          ("state", "ESTABLISHED") in leaves, First(leaves, "remote-host"))
  }

  lemma LeavesSummary(items: seq<Item>)
    ensures NotedLeaves(NOTHING, Leaves(items)) == Summary(items)
  {
    LeavesTotal(NOTHING, Leaves(items));
    LeavesState(NOTHING, Leaves(items));
  }

  /**
   * Throwing the nesting away loses nothing: for every dump, of any depth and
   * layout, the tokens add up to the totals over all leaves, and below 2^64
   * these are the plain sums.
   */
  lemma TokensAddUp(items: seq<Item>, sep: string)
    requires WellFormed(items) && Separator(sep)
    ensures NotedAll(NOTHING, Tokens(Text(items, sep))) == Summary(items)
    ensures Total(Leaves(items), "bytes-in") < WORD64 ==> Summary(items).bytesIn == Total(Leaves(items), "bytes-in")
    ensures Total(Leaves(items), "bytes-out") < WORD64 ==> Summary(items).bytesOut == Total(Leaves(items), "bytes-out")
  {
    TokensOfText(items, sep);
    TokensMeanLeaves(NOTHING, items);
    LeavesSummary(items);
  }

  lemma ContainsWider(a: string, s: string, b: string, part: string)
    requires Contains(s, part)
    ensures Contains(a + s + b, part)
  {
    var i :| 0 <= i <= |s| && part <= s[i..];
    var t := a + s + b;
    assert t[|a| + i..] == s[i..] + b;
    assert part <= t[|a| + i..];
  }

  lemma InRest(items: seq<Item>, sep: string, part: string)
    requires items != [] && Contains(Text(items[1..], sep), part)
    ensures Contains(Text(items, sep), part)
  {
    var rest := Text(items[1..], sep);
    var head := Text(items, sep)[..|Text(items, sep)| - |rest|];
    assert Text(items, sep) == head + rest + "";
    ContainsWider(head, rest, "", part);
  }

  lemma InSection(items: seq<Item>, sep: string, part: string)
    requires items != [] && items[0].Section? && Contains(Text(items[0].items, sep), part)
    ensures Contains(Text(items, sep), part)
  {
    var name, inner, after := items[0].name, Text(items[0].items, sep), "}" + sep + Text(items[1..], sep);
    assert Text(items, sep) == (name + " {") + inner + after;
    ContainsWider(name + " {", inner, after, part);
  }

  lemma ContainsHead(part: string, sep: string, rest: string)
    ensures Contains(part + sep + rest, part)
  {
    assert part <= (part + sep + rest)[0..];
  }

  lemma InEntry(items: seq<Item>, sep: string)
    requires items != [] && items[0].Entry?
    ensures Contains(Text(items, sep), items[0].key + "=" + items[0].value)
  {
    var part := items[0].key + "=" + items[0].value;
    assert Text(items, sep) == part + sep + Text(items[1..], sep);
    ContainsHead(part, sep, Text(items[1..], sep));
  }

  lemma {:induction false} LeafIsInText(items: seq<Item>, sep: string, leaf: (string, string))
    requires leaf in Leaves(items)
    ensures Contains(Text(items, sep), leaf.0 + "=" + leaf.1)
    decreases items
  {
    if leaf in Leaves(items[1..]) {
      LeafIsInText(items[1..], sep, leaf);
      InRest(items, sep, leaf.0 + "=" + leaf.1);
    } else if items[0].Section? {
      LeafIsInText(items[0].items, sep, leaf);
      InSection(items, sep, leaf.0 + "=" + leaf.1);
    } else {
      InEntry(items, sep);
    }
  }

  lemma ContainsPrefix(s: string, part: string, longer: string)
    requires part <= longer && Contains(s, longer)
    ensures Contains(s, part)
  {
    var i :| 0 <= i <= |s| && longer <= s[i..];
    assert part <= s[i..];
  }

  lemma {:induction false} TotalNeedsLeaf(leaves: seq<(string, string)>, key: string) returns (leaf: (string, string))
    requires Total(leaves, key) > 0
    ensures leaf in leaves && leaf.0 == key
  {
    if leaves[0].0 == key {
      leaf := leaves[0];
    } else {
      leaf := TotalNeedsLeaf(leaves[1..], key);
    }
  }

  /** A dump the reader gives up on has no inbound bytes and no established state; only outbound bytes can be missed. */
  lemma UnreadableDumps(items: seq<Item>, sep: string)
    requires !Readable(Text(items, sep))
    ensures Total(Leaves(items), "bytes-in") == 0 && ("state", "ESTABLISHED") !in Leaves(items)
  {
    if Total(Leaves(items), "bytes-in") > 0 {
      var leaf := TotalNeedsLeaf(Leaves(items), "bytes-in");
      LeafIsInText(items, sep, leaf);
      ContainsPrefix(Text(items, sep), "bytes-in", leaf.0 + "=" + leaf.1);
    }
    if ("state", "ESTABLISHED") in Leaves(items) {
      LeafIsInText(items, sep, ("state", "ESTABLISHED"));
      ContainsPrefix(Text(items, sep), "state=", "state" + "=" + "ESTABLISHED");
    }
  }

  /** The reader reports a dump's summary exactly when its text is readable, and nothing otherwise. */
  lemma DumpIsRead(items: seq<Item>, sep: string)
    requires WellFormed(items) && Separator(sep)
    ensures Parsed(Text(items, sep)) == if Readable(Text(items, sep)) then Some(Summary(items)) else None
  {
    TokensAddUp(items, sep);
  }

  lemma CharInside(s: string, part: string, k: nat)
    requires Contains(s, part) && k < |part|
    ensures part[k] in s
  {
    var i :| 0 <= i <= |s| && part <= s[i..];
    assert part[k] == s[i..][k] == s[i + k];
  }

  lemma NeitherLetter(s: string)
    requires 'i' !in s && 'a' !in s
    ensures !Readable(s)
  {
    if Contains(s, "bytes-in") {
      CharInside(s, "bytes-in", 6);
    }
    if Contains(s, "state=") {
      CharInside(s, "state=", 2);
    }
  }

  lemma OneDigit(c: char)
    requires '0' <= c <= '9'
    ensures Number([c]) == Some(c as int - '0' as int)
  {
    assert AllDigits([c]) && [c][..0] == "" && Decimal("") == 0;
    assert Decimal([c]) == 10 * Decimal([c][..0]) + (c as int - '0' as int);
  }

  /** Outbound bytes alone are missed. */
  lemma OutboundAloneIsMissed()
    ensures var items := [Entry("bytes-out", "5")];
            Total(Leaves(items), "bytes-out") == 5 && Parsed(Text(items, "\n")) == None
  {
    var items := [Entry("bytes-out", "5")];
    assert Leaves(items) == [("bytes-out", "5")];
    OneDigit('5');
    assert Text(items, "\n") == "bytes-out" + "=" + "5" + "\n" + "";
    NeitherLetter(Text(items, "\n"));
  }

  // ---- numbers and separators spelled out ----

  /** Braces, brackets, commas and the Unicode blanks separate tokens, and no other character does. */
  lemma SeparatorsExact(c: char)
    ensures Separates(c) <==>
              || c in "{}[],"
              || c as int in {9, 10, 11, 12, 13, 0x20, 0x85, 0xA0, 0x1680, 0x2000, 0x2001, 0x2002, 0x2003, 0x2004, 0x2005, 0x2006,
                              0x2007, 0x2008, 0x2009, 0x200a, 0x2028, 0x2029, 0x202f, 0x205f, 0x3000}
  {
  }

  /** A number in decimal notation. */
  function Digits(n: nat): string {
    if n < 10 then [DigitChar(n)] else Digits(n / 10) + [DigitChar(n % 10)]
  }

  function DigitChar(d: int): char
    requires 0 <= d < 10
  {
    "0123456789"[d]
  }

  function Zeros(k: nat): string {
    seq(k, i => '0')
  }

  lemma DecimalAppends(s: string, d: int)
    requires AllDigits(s) && 0 <= d < 10
    ensures AllDigits(s + [DigitChar(d)]) && Decimal(s + [DigitChar(d)]) == 10 * Decimal(s) + d
  {
    var t := s + [DigitChar(d)];
    assert t[..|t| - 1] == s && t[|t| - 1] == DigitChar(d);
  }

  lemma {:induction false} PaddedDecimal(k: nat, n: nat)
    ensures AllDigits(Zeros(k) + Digits(n)) && Decimal(Zeros(k) + Digits(n)) == n
    decreases n
  {
    if n < 10 {
      ZerosAreNothing(k);
      DecimalAppends(Zeros(k), n);
    } else {
      PaddedDecimal(k, n / 10);
      DecimalAppends(Zeros(k) + Digits(n / 10), n % 10);
      assert Zeros(k) + Digits(n) == (Zeros(k) + Digits(n / 10)) + [DigitChar(n % 10)];
      assert n == 10 * (n / 10) + n % 10;
    }
  }

  lemma {:induction false} ZerosAreNothing(k: nat)
    ensures AllDigits(Zeros(k)) && Decimal(Zeros(k)) == 0
  {
    if k > 0 {
      ZerosAreNothing(k - 1);
      DecimalAppends(Zeros(k - 1), 0);
      assert Zeros(k) == Zeros(k - 1) + [DigitChar(0)];
    }
  }

  /** Decimal notation reads back, with or without leading zeros, as far as 64 bits go. */
  lemma NumberOfDigits(k: nat, n: nat)
    ensures Number(Zeros(k) + Digits(n)) == if n < 18446744073709551616 then Some(n) else None
    ensures Number(Digits(n)) == if n < 18446744073709551616 then Some(n) else None
  {
    PaddedDecimal(k, n);
    PaddedDecimal(0, n);
    assert Zeros(0) + Digits(n) == Digits(n);
  }

  /** Nothing else is a number: neither the empty text nor one with another character. */
  lemma NumbersAreDigits(s: string)
    ensures s == "" || (exists i :: 0 <= i < |s| && !('0' <= s[i] <= '9')) ==> Number(s).None?
  {
  }

  /** And every other text is some number in decimal notation, after some zeros. */
  lemma {:induction false} DigitsAreNumbers(s: string) returns (k: nat, n: nat)
    requires s != "" && forall i :: 0 <= i < |s| ==> '0' <= s[i] <= '9'
    ensures s == Zeros(k) + Digits(n)
    decreases |s|
  {
    var last := s[|s| - 1];
    var d := last as int - '0' as int;
    assert s == s[..|s| - 1] + [DigitChar(d)];
    if |s| == 1 {
      k, n := 0, d;
    } else {
      var k', n' := DigitsAreNumbers(s[..|s| - 1]);
      if n' == 0 {
        k, n := k' + 1, d;
        assert Digits(0) == [DigitChar(0)] && Zeros(k) == Zeros(k') + [DigitChar(0)];
      } else {
        k, n := k', 10 * n' + d;
        assert n / 10 == n' && n % 10 == d;
        assert s == (Zeros(k') + Digits(n')) + [DigitChar(d)];
      }
    }
  }

  // ---- what is reported, in plain sums ----

  /** The values a dump has under one key, at any depth, in order. */
  function Under(items: seq<Item>, key: string): seq<string>
    decreases items
  {
    if items == [] then []
    else
      (match items[0]
       case Section(name, kids) => Under(kids, key)
       case Entry(k, value) => if k == key then [value] else []
       case List(name, values) => [])
      + Under(items[1..], key)
  }

  function Sum(ns: seq<nat>): nat {
    if ns == [] then 0 else ns[0] + Sum(ns[1..])
  }

  /** These values are these numbers in decimal notation. */
  ghost predicate Written(values: seq<string>, ns: seq<nat>) {
    |values| == |ns| && forall i :: 0 <= i < |ns| ==> values[i] == Digits(ns[i])
  }

  function UnderLeaves(leaves: seq<(string, string)>, key: string): seq<string> {
    if leaves == [] then [] else (if leaves[0].0 == key then [leaves[0].1] else []) + UnderLeaves(leaves[1..], key)
  }

  lemma {:induction false} UnderLeavesJoin(a: seq<(string, string)>, b: seq<(string, string)>, key: string)
    ensures UnderLeaves(a + b, key) == UnderLeaves(a, key) + UnderLeaves(b, key)
  {
    if a == [] {
      assert a + b == b;
    } else {
      assert (a + b)[1..] == a[1..] + b;
      UnderLeavesJoin(a[1..], b, key);
    }
  }

  lemma {:induction false} UnderIsLeaves(items: seq<Item>, key: string)
    ensures Under(items, key) == UnderLeaves(Leaves(items), key)
    decreases items
  {
    if items != [] {
      UnderIsLeaves(items[1..], key);
      match items[0]
      case Section(name, kids) =>
        UnderIsLeaves(kids, key);
        UnderLeavesJoin(Leaves(kids), Leaves(items[1..]), key);
      case Entry(k, value) =>
        UnderLeavesJoin([(k, value)], Leaves(items[1..]), key);
        assert UnderLeaves([(k, value)], key) == if k == key then [value] else [];
      case List(name, values) =>
        UnderLeavesJoin([], Leaves(items[1..]), key);
    }
  }

  lemma WrittenHead(values: seq<string>, ns: seq<nat>)
    requires Written(values, ns) && values != [] && Sum(ns) < 18446744073709551616
    ensures Number(values[0]) == Some(ns[0]) && Written(values[1..], ns[1..]) && Sum(ns) == ns[0] + Sum(ns[1..])
  {
    NumberOfDigits(0, ns[0]);
  }

  lemma UnderHead(leaves: seq<(string, string)>, key: string)
    requires leaves != []
    ensures var rest := UnderLeaves(leaves[1..], key);
            if leaves[0].0 == key then UnderLeaves(leaves, key) != [] && UnderLeaves(leaves, key)[0] == leaves[0].1
                                       && UnderLeaves(leaves, key)[1..] == rest
            else UnderLeaves(leaves, key) == rest
  {
  }

  lemma {:induction false} TotalIsSum(leaves: seq<(string, string)>, key: string, ns: seq<nat>)
    requires Written(UnderLeaves(leaves, key), ns) && Sum(ns) < 18446744073709551616
    ensures Total(leaves, key) == Sum(ns)
    decreases |leaves|
  {
    if leaves != [] {
      UnderHead(leaves, key);
      if leaves[0].0 == key {
        WrittenHead(UnderLeaves(leaves, key), ns);
        TotalIsSum(leaves[1..], key, ns[1..]);
      } else {
        TotalIsSum(leaves[1..], key, ns);
      }
    }
  }

  lemma {:induction false} LeafIffUnder(leaves: seq<(string, string)>, key: string, value: string)
    ensures (key, value) in leaves <==> value in UnderLeaves(leaves, key)
  {
    if leaves != [] {
      LeafIffUnder(leaves[1..], key, value);
      assert leaves == [leaves[0]] + leaves[1..];
    }
  }

  /** `r` is the first of these values that is not empty, or empty if all are. */
  ghost predicate FirstOf(values: seq<string>, r: string) {
    if values == [] then r == "" else if values[0] != "" then r == values[0] else FirstOf(values[1..], r)
  }

  lemma {:induction false} FirstOfIs(values: seq<string>, r: string)
    requires FirstOf(values, r)
    ensures if forall i :: 0 <= i < |values| ==> values[i] == "" then r == ""
            else exists i :: 0 <= i < |values| && r == values[i] != "" && forall j :: 0 <= j < i ==> values[j] == ""
  {
    if values != [] && values[0] == "" {
      var rest := values[1..];
      FirstOfIs(rest, r);
      if exists i :: 0 <= i < |rest| && rest[i] != "" {
        var i :| 0 <= i < |rest| && r == rest[i] != "" && forall j :: 0 <= j < i ==> rest[j] == "";
        assert r == values[i + 1] && forall j :: 0 <= j < i + 1 ==> values[j] == "" by {
          assert forall j :: 0 < j < i + 1 ==> values[j] == rest[j - 1];
        }
      }
    }
  }

  lemma {:induction false} FirstIsUnder(leaves: seq<(string, string)>, key: string)
    ensures FirstOf(UnderLeaves(leaves, key), First(leaves, key))
    decreases |leaves|
  {
    if leaves != [] {
      UnderHead(leaves, key);
      FirstIsUnder(leaves[1..], key);
    }
  }

  /**
   * What is reported for a dump of any depth and layout whose counters are
   * written in decimal: exactly the sums, whether some state is ESTABLISHED,
   * and the first remote host that is not empty. Nothing is reported only
   * for a text without "bytes-in" and without "state=".
   */
  lemma DumpTotals(items: seq<Item>, sep: string, ins: seq<nat>, outs: seq<nat>)
    requires WellFormed(items) && Separator(sep)
    requires Written(Under(items, "bytes-in"), ins) && Sum(ins) < 18446744073709551616
    requires Written(Under(items, "bytes-out"), outs) && Sum(outs) < 18446744073709551616
    ensures Parsed(Text(items, sep)).Some? <==> Contains(Text(items, sep), "bytes-in") || Contains(Text(items, sep), "state=")
    ensures Parsed(Text(items, sep)).Some? ==>
              var r, remotes := Parsed(Text(items, sep)).value, Under(items, "remote-host");
              && r.bytesIn == Sum(ins) && r.bytesOut == Sum(outs)
              && (r.established <==> "ESTABLISHED" in Under(items, "state"))
              && if forall i :: 0 <= i < |remotes| ==> remotes[i] == "" then r.remote == ""
                 else exists i :: 0 <= i < |remotes| && r.remote == remotes[i] != "" && forall j :: 0 <= j < i ==> remotes[j] == ""
  {
    DumpIsRead(items, sep);
    TokensAddUp(items, sep);
    UnderIsLeaves(items, "bytes-in");
    UnderIsLeaves(items, "bytes-out");
    UnderIsLeaves(items, "state");
    UnderIsLeaves(items, "remote-host");
    TotalIsSum(Leaves(items), "bytes-in", ins);
    TotalIsSum(Leaves(items), "bytes-out", outs);
    LeafIffUnder(Leaves(items), "state", "ESTABLISHED");
    FirstIsUnder(Leaves(items), "remote-host");
    FirstOfIs(Under(items, "remote-host"), First(Leaves(items), "remote-host"));
  }
}

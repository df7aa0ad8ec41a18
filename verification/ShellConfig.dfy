/**
 * The configuration printed as shell assignments, and read back by the rules
 * of sections 2.2.1 and 2.2.2 of the POSIX Shell Command Language: a
 * backslash outside quotes keeps the next character, single quotes keep
 * everything up to the next single quote.
 */
module ShellConfig {
  import opened Results

  datatype Pair = Pair(name: string, value: string)

  // ---- the printer ----

  /** Every single quote replaced by: close the quotes, an escaped quote, open them again. */
  function Escape(v: string): string {
    if v == "" then ""
    else EscapeChar(v[0]) + Escape(v[1..])
  }

  function EscapeChar(c: char): string {
    if c == '\'' then "'\\''" else [c]
  }

  function Line(p: Pair): string {
    p.name + "='" + Escape(p.value) + "'\n"
  }

  function Emitted(pairs: seq<Pair>): string {
    if pairs == [] then "" else Line(pairs[0]) + Emitted(pairs[1..])
  }

  method EmitShellConfig(pairs: seq<Pair>) returns (out: string)
    requires forall i :: 0 <= i < |pairs| ==> ValidName(pairs[i].name)
    ensures out == Emitted(pairs)
    ensures Read(out) == Some(pairs)
  {
    out := "";
    for i := 0 to |pairs|
      invariant out + Emitted(pairs[i..]) == Emitted(pairs)
    {
      assert pairs[i..][1..] == pairs[i + 1..];
      out := out + (pairs[i].name + "='" + Escape(pairs[i].value) + "'\n");
    }
    ReadsBack(pairs);
  }

  // ---- the reader ----

  predicate NameStart(c: char) {
    'A' <= c <= 'Z' || 'a' <= c <= 'z' || c == '_'
  }

  predicate NameChar(c: char) {
    NameStart(c) || '0' <= c <= '9'
  }

  predicate ValidName(n: string) {
    n != "" && NameStart(n[0]) && forall c :: c in n ==> NameChar(c)
  }

  /** Characters that mean something to the shell when they stand unquoted; this reader refuses them. */
  predicate Special(c: char) {
    c in " \t|&;<>()$`\"*?[#~%{}!"
  }

  function Prepend(c: char, r: Option<(string, string)>): Option<(string, string)> {
    if r.None? then None else Some(([c] + r.value.0, r.value.1))
  }

  /** The rest of a word outside quotes, up to the newline that ends the command or the end of the text. */
  function ReadWord(s: string): Option<(string, string)>
    decreases |s|
  {
    if s == "" then Some(("", ""))
    else if s[0] == '\n' then Some(("", s[1..]))
    else if s[0] == '\'' then ReadQuoted(s[1..])
    else if s[0] == '\\' then
      if |s| == 1 then None
      else if s[1] == '\n' then ReadWord(s[2..])
      else Prepend(s[1], ReadWord(s[2..]))
    else if Special(s[0]) then None
    else Prepend(s[0], ReadWord(s[1..]))
  }

  /** The rest of a word inside single quotes. */
  function ReadQuoted(s: string): Option<(string, string)>
    decreases |s|
  {
    if s == "" then None
    else if s[0] == '\'' then ReadWord(s[1..])
    else Prepend(s[0], ReadQuoted(s[1..]))
  }

  /** The text before the first equals sign, and the text after it. */
  function ReadName(s: string): Option<(string, string)> {
    if s == "" then None
    else if s[0] == '=' then Some(("", s[1..]))
    else Prepend(s[0], ReadName(s[1..]))
  }

  lemma ReadNameShrinks(s: string)
    requires ReadName(s).Some?
    ensures |ReadName(s).value.1| < |s|
  {
  }

  lemma ReadWordShrinks(s: string)
    ensures ReadWord(s).Some? ==> |ReadWord(s).value.1| <= |s|
    ensures ReadQuoted(s).Some? ==> |ReadQuoted(s).value.1| <= |s|
    decreases |s|
  {
    if s != "" {
      ReadWordShrinks(s[1..]);
      if |s| > 1 {
        ReadWordShrinks(s[2..]);
      }
    }
  }

  /** A text of assignments, as the list of what it assigns; None if some command is not an assignment. */
  function Read(s: string): Option<seq<Pair>>
    decreases |s|
  {
    if s == "" then Some([])
    else
      var name := ReadName(s);
      if name.None? || !ValidName(name.value.0) then None
      else
        ReadNameShrinks(s);
        ReadWordShrinks(name.value.1);
        var word := ReadWord(name.value.1);
        if word.None? then None
        else
          var rest := Read(word.value.1);
          if rest.None? then None else Some([Pair(name.value.0, word.value.0)] + rest.value)
  }

  // ---- the round trip ----

  lemma ReopensQuotes(t: string)
    ensures ReadWord("\\''" + t) == Prepend('\'', ReadQuoted(t))
  {
    var s := "\\''" + t;
    assert s[2..] == "'" + t;
    assert s[2..][1..] == t;
  }

  /** Inside quotes, one escaped character is read as that character. */
  lemma EscapedCharReadsBack(c: char, t: string)
    ensures ReadQuoted(EscapeChar(c) + t) == Prepend(c, ReadQuoted(t))
  {
    var s := EscapeChar(c) + t;
    if c == '\'' {
      assert s[1..] == "\\''" + t;
      ReopensQuotes(t);
    } else {
      assert s[1..] == t;
    }
  }

  lemma QuotedStart(v: string, rest: string)
    requires v != ""
    ensures Escape(v) + "'" + rest == EscapeChar(v[0]) + (Escape(v[1..]) + "'" + rest)
  {
  }

  lemma QuotedEnd(rest: string)
    ensures ReadQuoted(Escape("") + "'" + rest) == ReadWord(rest)
  {
    var s := Escape("") + "'" + rest;
    assert s[0] == '\'' && s[1..] == rest;
  }

  function PrependAll(v: string, r: Option<(string, string)>): Option<(string, string)> {
    if r.None? then None else Some((v + r.value.0, r.value.1))
  }

  lemma PrependHead(v: string, r: Option<(string, string)>)
    requires v != ""
    ensures Prepend(v[0], PrependAll(v[1..], r)) == PrependAll(v, r)
  {
    if r.Some? {
      assert [v[0]] + (v[1..] + r.value.0) == v + r.value.0;
    }
  }

  /** Inside quotes, an escaped value and the closing quote read as the value, whatever follows. */
  lemma {:induction false} QuotedReadsBack(v: string, rest: string)
    ensures ReadQuoted(Escape(v) + "'" + rest) == PrependAll(v, ReadWord(rest))
  {
    if v == "" {
      QuotedEnd(rest);
      assert ReadWord(rest).Some? ==> "" + ReadWord(rest).value.0 == ReadWord(rest).value.0;
    } else {
      QuotedReadsBack(v[1..], rest);
      EscapedCharReadsBack(v[0], Escape(v[1..]) + "'" + rest);
      QuotedStart(v, rest);
      PrependHead(v, ReadWord(rest));
    }
  }

  lemma {:induction false} NameReadsBack(n: string, rest: string)
    requires forall c :: c in n ==> NameChar(c)
    ensures ReadName(n + "=" + rest) == Some((n, rest))
  {
    var s := n + "=" + rest;
    if n == "" {
      assert s[1..] == rest;
    } else {
      assert n == [n[0]] + n[1..] && n[0] in n;
      assert s[1..] == n[1..] + "=" + rest;
      NameReadsBack(n[1..], rest);
    }
  }

  /** One assignment with its newline, or with nothing after it, is read as its pair. */
  lemma LineReadsBack(p: Pair, ending: string, rest: string)
    requires ValidName(p.name) && ReadWord(ending).Some? && ReadWord(ending).value == ("", rest)
    ensures var s := p.name + "='" + Escape(p.value) + "'" + ending;
            Read(s) == if Read(rest).None? then None else Some([p] + Read(rest).value)
  {
    var s := p.name + "='" + Escape(p.value) + "'" + ending;
    var word := "'" + Escape(p.value) + "'" + ending;
    assert s == p.name + "=" + word;
    NameReadsBack(p.name, word);
    QuotedReadsBack(p.value, ending);
    assert word[1..] == Escape(p.value) + "'" + ending;
    assert p.value + "" == p.value;
  }

  /** Whatever the values hold, reading the whole emitted text gives back the list of pairs in order. */
  lemma {:induction false} ReadsBack(pairs: seq<Pair>)
    requires forall i :: 0 <= i < |pairs| ==> ValidName(pairs[i].name)
    ensures Read(Emitted(pairs)) == Some(pairs)
  {
    if pairs != [] {
      ReadsBack(pairs[1..]);
      assert pairs == [pairs[0]] + pairs[1..];
      var rest := Emitted(pairs[1..]);
      assert ("\n" + rest)[1..] == rest;
      LineReadsBack(pairs[0], "\n" + rest, rest);
      assert Emitted(pairs) == pairs[0].name + "='" + Escape(pairs[0].value) + "'" + ("\n" + rest);
    }
  }

  // ---- through a command substitution ----

  /** A command substitution strips all newlines at the end of its output. */
  function Stripped(s: string): string {
    if s != "" && s[|s| - 1] == '\n' then Stripped(s[..|s| - 1]) else s
  }

  /** All lines but for the last newline. */
  function Unterminated(pairs: seq<Pair>): string
    requires pairs != []
  {
    if |pairs| == 1 then pairs[0].name + "='" + Escape(pairs[0].value) + "'"
    else Line(pairs[0]) + Unterminated(pairs[1..])
  }

  lemma {:induction false} StripsOneNewline(pairs: seq<Pair>)
    requires pairs != []
    ensures Emitted(pairs) == Unterminated(pairs) + "\n"
    ensures Unterminated(pairs) != "" && Unterminated(pairs)[|Unterminated(pairs)| - 1] == '\''
  {
    if |pairs| == 1 {
      assert Emitted(pairs[1..]) == "";
    } else {
      StripsOneNewline(pairs[1..]);
    }
  }

  lemma {:induction false} UnterminatedReadsBack(pairs: seq<Pair>)
    requires pairs != [] && forall i :: 0 <= i < |pairs| ==> ValidName(pairs[i].name)
    ensures Read(Unterminated(pairs)) == Some(pairs)
  {
    if |pairs| == 1 {
      LineReadsBack(pairs[0], "", "");
      assert Unterminated(pairs) == pairs[0].name + "='" + Escape(pairs[0].value) + "'" + "";
      assert [pairs[0]] + [] == pairs;
    } else {
      var rest := Unterminated(pairs[1..]);
      UnterminatedReadsBack(pairs[1..]);
      assert pairs == [pairs[0]] + pairs[1..];
      assert ("\n" + rest)[1..] == rest;
      LineReadsBack(pairs[0], "\n" + rest, rest);
      assert Unterminated(pairs) == pairs[0].name + "='" + Escape(pairs[0].value) + "'" + ("\n" + rest);
    }
  }

  lemma StripsTo(u: string)
    requires u != "" && u[|u| - 1] != '\n'
    ensures Stripped(u + "\n") == u
  {
    assert (u + "\n")[..|u|] == u;
  }

  /** The round trip also holds for a caller that evaluates the output of a command substitution. */
  lemma SubstitutionReadsBack(pairs: seq<Pair>)
    requires forall i :: 0 <= i < |pairs| ==> ValidName(pairs[i].name)
    ensures Read(Stripped(Emitted(pairs))) == Some(pairs)
  {
    if pairs != [] {
      StripsOneNewline(pairs);
      UnterminatedReadsBack(pairs);
      StripsTo(Unterminated(pairs));
    }
  }

  // ---- the names the node prints ----

  function Names(): (ns: seq<string>)
    ensures |ns| == 30
  {
    [ "VPN_CFG_LISTEN_ADDR", "VPN_CFG_NODE_ID", "VPN_CFG_PUBLIC_HOST", "VPN_CFG_STATE_FILE", "VPN_CFG_TLS_ENABLED",
      "VPN_CFG_TLS_CERT", "VPN_CFG_TLS_KEY", "VPN_CFG_WG_ENABLED", "VPN_CFG_WG_IFACE", "VPN_CFG_WG_PORT",
      "VPN_CFG_WG_SUBNET", "VPN_CFG_WG_GATEWAY", "VPN_CFG_WG_KEYDIR", "VPN_CFG_WG_IPV6_ENABLED", "VPN_CFG_WG_SUBNET_V6",
      "VPN_CFG_WG_GATEWAY_V6", "VPN_CFG_OVPN_ENABLED", "VPN_CFG_OVPN_EASYRSA", "VPN_CFG_OVPN_SERVERDIR", "VPN_CFG_OVPN_MGMT_UDP",
      "VPN_CFG_OVPN_MGMT_TCP", "VPN_CFG_OVPN_UDP_PORT", "VPN_CFG_OVPN_TCP_PORT", "VPN_CFG_IKEV2_ENABLED", "VPN_CFG_IKEV2_SUBNET",
      "VPN_CFG_IKEV2_CONFDIR", "VPN_CFG_IKEV2_CERT", "VPN_CFG_IKEV2_KEY", "VPN_CFG_IKEV2_SERVER_ID", "VPN_CFG_DNS_RESOLVER" ]
  }

  function Pairs(values: seq<string>): seq<Pair>
    requires |values| == 30
  {
    seq(30, i requires 0 <= i < 30 => Pair(Names()[i], values[i]))
  }

  lemma NamesFirstValid()
    ensures forall i :: 0 <= i < 10 ==> ValidName(Names()[i])
  {
  }

  lemma NamesSecondValid()
    ensures forall i :: 10 <= i < 20 ==> ValidName(Names()[i])
  {
  }

  lemma NamesThirdValid()
    ensures forall i :: 20 <= i < 30 ==> ValidName(Names()[i])
  {
  }

  lemma NamesAreValid()
    ensures forall i :: 0 <= i < 30 ==> ValidName(Names()[i])
  {
    NamesFirstValid();
    NamesSecondValid();
    NamesThirdValid();
  }

  lemma NamesDiffer()
    ensures forall i, j :: 0 <= i < j < 30 ==> Names()[i] != Names()[j]
  {
  }

  /** The variables after a list of assignments; a later one of the same name wins. */
  function Variables(pairs: seq<Pair>): map<string, string> {
    if pairs == [] then map[]
    else Variables(pairs[..|pairs| - 1])[pairs[|pairs| - 1].name := pairs[|pairs| - 1].value]
  }

  lemma {:induction false} VariableOf(pairs: seq<Pair>, i: nat)
    requires i < |pairs| && forall j, k :: 0 <= j < k < |pairs| ==> pairs[j].name != pairs[k].name
    ensures pairs[i].name in Variables(pairs) && Variables(pairs)[pairs[i].name] == pairs[i].value
  {
    var n := |pairs| - 1;
    if i < n {
      VariableOf(pairs[..n], i);
    }
  }

  /** A shell that evaluates the captured output has every configuration value under its name, unchanged. */
  lemma ConfigReadsBack(values: seq<string>)
    requires |values| == 30
    ensures Read(Emitted(Pairs(values))) == Some(Pairs(values))
    ensures var read := Read(Stripped(Emitted(Pairs(values))));
            && read.Some?
            && forall i :: 0 <= i < 30 ==> Names()[i] in Variables(read.value) && Variables(read.value)[Names()[i]] == values[i]
  {
    var pairs := Pairs(values);
    NamesAreValid();
    ReadsBack(pairs);
    SubstitutionReadsBack(pairs);
    forall i | 0 <= i < 30
      ensures Names()[i] in Variables(pairs) && Variables(pairs)[Names()[i]] == values[i]
    {
      NamesDiffer();
      VariableOf(pairs, i);
    }
  }
}

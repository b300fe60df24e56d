/** Which header blocks parse, and to what, stated on the text (axiom-store/protocol.py). */
module Headers {
  import opened Wrappers
  import opened Text
  import opened Utf8
  import opened Protocol

  // ----- one line ----------------------------------------------------------------------------------

  function Spaces(n: nat): string {
    seq(n, _ => ' ')
  }

  /** `name:value`, with any number of spaces behind the first colon. */
  ghost predicate Field(line: string, name: string, value: string) {
    && ':' !in name && (value == "" || value[0] != ' ')
    && exists n: nat :: line == name + ":" + Spaces(n) + value
  }

  lemma {:induction false} SpacesDropped(n: nat, value: string)
    requires value == "" || value[0] != ' '
    ensures DropSpaces(Spaces(n) + value) == value
  {
    var s := Spaces(n) + value;
    if n > 0 {
      assert s[1..] == Spaces(n - 1) + value;
      SpacesDropped(n - 1, value);
    } else {
      assert s == value;
    }
  }

  lemma {:induction false} SpacesFound(s: string) returns (n: nat)
    ensures s == Spaces(n) + DropSpaces(s)
    ensures DropSpaces(s) == "" || DropSpaces(s)[0] != ' '
  {
    if s != "" && s[0] == ' ' {
      var k := SpacesFound(s[1..]);
      n := k + 1;
      assert s == [' '] + s[1..] && Spaces(n) == [' '] + Spaces(k);
    } else {
      n := 0;
      assert Spaces(0) + s == s;
    }
  }

  /** What a line of the form does to the headers read before it. */
  lemma FieldAdds(headers: map<string, string>, line: string, name: string, value: string)
    requires Field(line, name, value)
    ensures AddHeader(headers, line)
         == if exists c :: c in name && 'A' <= c <= 'Z' then Err(NotLowercase)
            else if name in headers then Err(DuplicateHeader)
            else Ok(headers[name := value])
  {
    hide IndexOf;
    hide DropSpaces;
    var n: nat :| line == name + ":" + Spaces(n) + value;
    var rest := Spaces(n) + value;
    assert line == name + [':'] + rest;
    IndexOfAt(name, ':', rest);
    assert line[..|name|] == name && line[|name| + 1..] == rest;
    SpacesDropped(n, value);
    if !Lowercase(name) {
      var i :| 0 <= i < |name| && 'A' <= name[i] <= 'Z';
      assert name[i] in name;
    }
  }

  /** The lines of that form are those with a colon, and each can be read in one way only. */
  lemma FieldExists(line: string) returns (name: string, value: string)
    requires ':' in line
    ensures Field(line, name, value)
  {
    var k := IndexOf(line, ':');
    assert k < |line| by {
      assert line[..|line|] == line;
    }
    name, value := line[..k], DropSpaces(line[k + 1..]);
    var n := SpacesFound(line[k + 1..]);
    assert line == name + ":" + Spaces(n) + value;
  }

  lemma FieldHasColon(line: string, name: string, value: string)
    requires Field(line, name, value)
    ensures ':' in line && line != ""
  {
    var n: nat :| line == name + ":" + Spaces(n) + value;
    assert line[|name|] == ':';
  }

  /** Other lines are refused. */
  lemma NoField(headers: map<string, string>, line: string)
    requires ':' !in line
    ensures AddHeader(headers, line) == Err(if line == "" then BlankLine else NoColon)
  {
  }

  // ----- the lines behind the first ------------------------------------------------------------------

  ghost predicate Carries(lines: seq<string>, n: nat, name: string, value: string)
    requires n <= |lines|
  {
    exists i :: 0 <= i < n && Field(lines[i], name, value)
  }

  ghost predicate Has(headers: map<string, string>, name: string, value: string) {
    name in headers && headers[name] == value
  }

  lemma HasUpdated(headers: map<string, string>, name: string, value: string)
    requires name !in headers
    ensures forall k, v :: Has(headers[name := value], k, v) <==> Has(headers, k, v) || (k == name && v == value)
  {
    forall k: string, v: string
      ensures Has(headers[name := value], k, v) <==> Has(headers, k, v) || (k == name && v == value)
    {
      if k == name {
        assert !Has(headers, k, v);
      } else {
        assert Has(headers[name := value], k, v) <==> Has(headers, k, v);
      }
    }
  }

  /** Each of the first `n` lines is a field in lower case, and no two have the same name. */
  ghost predicate AllFields(lines: seq<string>, n: nat)
    requires n <= |lines|
  {
    && (forall i :: 0 <= i < n ==> ':' in lines[i])
    && (forall i, name, value, c :: 0 <= i < n && Field(lines[i], name, value) && c in name ==> !('A' <= c <= 'Z'))
    && (forall i, j, name, v, w :: 0 <= i < j < n && Field(lines[i], name, v) ==> !Field(lines[j], name, w))
  }

  /** The lines are taken exactly when all are fields, and the headers are then what the fields say. */
  lemma {:induction false} HeadersExactly(lines: seq<string>, n: nat)
    requires n <= |lines|
    ensures AddHeaders(lines, n).Ok? <==> AllFields(lines, n)
    ensures AddHeaders(lines, n).Ok? ==>
      forall name, value :: Has(AddHeaders(lines, n).value, name, value) <==> Carries(lines, n, name, value)
  {
    hide Field;
    hide AddHeader;
    if n != 0 {
      HeadersExactly(lines, n - 1);
      var line := lines[n - 1];
      if AddHeaders(lines, n - 1).Ok? {
        var headers := AddHeaders(lines, n - 1).value;
        if ':' !in line {
          NoField(headers, line);
        } else {
          var name, value := FieldExists(line);
          OneMoreField(lines, n, headers, name, value);
        }
      }
    }
  }

  lemma OneMoreField(lines: seq<string>, n: nat, headers: map<string, string>, name: string, value: string)
    requires 0 < n <= |lines| && Field(lines[n - 1], name, value)
    requires AllFields(lines, n - 1)
    requires forall k, v :: Has(headers, k, v) <==> Carries(lines, n - 1, k, v)
    ensures AddHeader(headers, lines[n - 1]).Ok? <==> AllFields(lines, n)
    ensures AddHeader(headers, lines[n - 1]).Ok? ==>
      forall k, v :: Has(AddHeader(headers, lines[n - 1]).value, k, v) <==> Carries(lines, n, k, v)
  {
    hide Field;
    hide AddHeader;
    var line := lines[n - 1];
    FieldAdds(headers, line, name, value);
    FieldHasColon(line, name, value);
    forall k, v | Field(line, k, v) ensures k == name && v == value {
      FieldUnique(line, name, value, k, v);
    }
    if name in headers {
      assert Has(headers, name, headers[name]);
      var i :| 0 <= i < n - 1 && Field(lines[i], name, headers[name]);
    } else {
      forall i, v | 0 <= i < n - 1 ensures !Field(lines[i], name, v) {
        assert !Has(headers, name, v);
      }
      HasUpdated(headers, name, value);
    }
    forall k, v ensures Carries(lines, n, k, v) <==> Carries(lines, n - 1, k, v) || (k == name && v == value) {
      if k == name && v == value {
        assert Field(lines[n - 1], k, v);
      }
    }
    var next := AddHeader(headers, line);
    if next.Ok? {
      assert next.value == headers[name := value];
      forall k, v ensures Has(next.value, k, v) <==> Carries(lines, n, k, v) {
        assert Has(next.value, k, v) <==> Has(headers[name := value], k, v);
        assert Has(headers[name := value], k, v) <==> Has(headers, k, v) || (k == name && v == value);
        assert Has(headers, k, v) <==> Carries(lines, n - 1, k, v);
        assert Carries(lines, n, k, v) <==> Carries(lines, n - 1, k, v) || (k == name && v == value);
      }
    }
  }

  lemma FieldUnique(line: string, name: string, value: string, k: string, v: string)
    requires Field(line, name, value) && Field(line, k, v)
    ensures k == name && v == value
  {
    FieldAdds(map[], line, name, value);
    FieldAdds(map[], line, k, v);
    FieldParts(line, name, value);
    FieldParts(line, k, v);
  }

  lemma FieldParts(line: string, name: string, value: string)
    requires Field(line, name, value)
    ensures var i := IndexOf(line, ':'); i < |line| && name == line[..i] && value == DropSpaces(line[i + 1..])
  {
    hide IndexOf;
    var n: nat :| line == name + ":" + Spaces(n) + value;
    var rest := Spaces(n) + value;
    assert line == name + [':'] + rest;
    IndexOfAt(name, ':', rest);
    assert line[..|name|] == name && line[|name| + 1..] == rest;
    SpacesDropped(n, value);
  }

  // ----- numbers -------------------------------------------------------------------------------------

  function Concat(groups: seq<string>): string {
    if groups == [] then "" else Concat(groups[..|groups| - 1]) + groups[|groups| - 1]
  }

  /** Groups of digits, none of them empty. */
  ghost predicate Groups(groups: seq<string>) {
    groups != [] && forall g :: g in groups ==> g != "" && AllDigits(g)
  }

  /** `raw` is white space around a sign, if any, and groups of digits with single underscores between them. */
  ghost predicate Numeral(raw: string, sign: string, groups: seq<string>) {
    && Groups(groups) && sign in {"", "+", "-"}
    && exists lead, trail :: Blank(lead) && Blank(trail) && raw == lead + (sign + Join(groups, '_')) + trail
  }

  lemma {:induction false} ConcatDigits(groups: seq<string>)
    requires forall g :: g in groups ==> AllDigits(g)
    ensures AllDigits(Concat(groups))
  {
    if groups != [] {
      var n := |groups| - 1;
      assert groups[n] in groups;
      ConcatDigits(groups[..n]);
    }
  }

  lemma {:induction false} ConcatCons(g: string, rest: seq<string>)
    ensures Concat([g] + rest) == g + Concat(rest)
  {
    var all := [g] + rest;
    if rest == [] {
      assert all == [g] && [g][..0] == [] && Concat([]) == "";
    } else {
      var n := |rest| - 1;
      assert all[..n + 1] == [g] + rest[..n];
      ConcatCons(g, rest[..n]);
    }
  }

  predicate Written(s: string) {
    forall i :: 0 <= i < |s| ==> IsDigit(s[i]) || s[i] == '_'
  }

  lemma {:induction false} UnderscoresConcat(a: string, b: string)
    requires Written(a) && Written(b)
    ensures DropUnderscores(a + b) == DropUnderscores(a) + DropUnderscores(b)
  {
    if b == "" {
      assert a + b == a;
    } else {
      var n := |b| - 1;
      assert (a + b)[..|a + b| - 1] == a + b[..n];
      UnderscoresConcat(a, b[..n]);
    }
  }

  lemma {:induction false} GroupsAreDigits(groups: seq<string>)
    requires Groups(groups)
    ensures IntDigits(Join(groups, '_')) && DropUnderscores(Join(groups, '_')) == Concat(groups)
  {
    var g, rest := groups[0], groups[1..];
    assert g in groups && AllDigits(g);
    NoUnderscores(g);
    assert groups == [g] + rest;
    ConcatCons(g, rest);
    if rest == [] {
      assert Concat([]) == "";
      PlainDigits(g);
    } else {
      GroupsAreDigits(rest);
      var tail := Join(rest, '_');
      UnderscoresConcat(g + ['_'], tail);
      UnderscoresConcat(g, ['_']);
      assert DropUnderscores(['_']) == "" by {
        assert ['_'][..0] == "";
      }
      GroupAndMore(g, tail);
    }
  }

  lemma GroupAndMore(g: string, tail: string)
    requires g != "" && AllDigits(g) && IntDigits(tail)
    ensures IntDigits(g + ['_'] + tail)
  {
    var s := g + ['_'] + tail;
    assert forall i :: 0 <= i < |tail| ==> s[|g| + 1 + i] == tail[i];
    forall i | 0 <= i < |s| ensures Between(s, i) {
      assert i > |g| ==> Between(tail, i - |g| - 1);
    }
  }

  lemma MoreAfterGroup(g: string, tail: string)
    requires IntDigits(g + ['_'] + tail)
    ensures g != "" && IntDigits(tail)
  {
    var s := g + ['_'] + tail;
    assert s[|g|] == '_' && !IsDigit(s[|g|]) && Between(s, |g|);
    assert Between(s, |g| + 1);
    forall i | 0 <= i < |tail| ensures (IsDigit(tail[i]) || tail[i] == '_') && Between(tail, i) {
      assert s[|g| + 1 + i] == tail[i] && Between(s, |g| + 1 + i);
    }
  }

  lemma {:induction false} DigitsAreGroups(s: string)
    requires IntDigits(s)
    ensures Groups(Split(s, '_'))
  {
    hide IsDigit;
    var k := IndexOf(s, '_');
    if k == |s| {
      assert s[..k] == s;
      SplitWhole(s, '_');
    } else {
      var g, tail := s[..k], s[k + 1..];
      assert s == g + ['_'] + tail;
      MoreAfterGroup(g, tail);
      DigitsAreGroups(tail);
      SplitAt(g, '_', tail);
      SplitWhole(g, '_');
    }
  }

  lemma BlankAt(s: string, k: nat)
    requires k < |s| && Blank(s)
    ensures IsSpace(s[k])
  {
  }

  lemma StripAround(lead: string, core: string, trail: string)
    requires Blank(lead) && Blank(trail) && core != "" && !IsSpace(core[0]) && !IsSpace(core[|core| - 1])
    ensures Strip(lead + core + trail) == core
  {
    hide IsSpace;
    var s := lead + core + trail;
    var i, j :| 0 <= i <= j <= |s| && Strip(s) == s[i..j] && Blank(s[..i]) && Blank(s[j..]);
    var a, b := |lead|, |lead| + |core|;
    assert s[a] == core[0] && s[b - 1] == core[|core| - 1];
    assert !Blank(s);
    if i > a {
      BlankAt(s[..i], a);
    }
    if j < b {
      BlankAt(s[j..], b - 1 - j);
    }
    assert i < a ==> s[i] == lead[i];
    assert b < j ==> s[j - 1] == trail[j - 1 - b];
    assert s[a..b] == core;
  }

  function Signed(sign: string, n: nat): int {
    if sign == "-" then -(n as int) else n as int
  }

  lemma SignedDigits(raw: string, sign: string, digits: string)
    requires Strip(raw) == sign + digits && sign in {"", "+", "-"}
    requires sign == "" ==> digits == "" || digits[0] !in {'+', '-'}
    ensures ParseInt(raw).Some? <==> ParseDigits(digits).Some?
    ensures ParseInt(raw).Some? ==> ParseInt(raw).value == Signed(sign, ParseDigits(digits).value)
  {
    hide ParseDigits;
    hide Strip;
    assert sign != "" ==> (sign + digits)[1..] == digits;
    assert sign == "" ==> sign + digits == digits;
  }

  /** A numeral is read as the number its digits spell. */
  lemma NumeralParses(raw: string, sign: string, groups: seq<string>)
    requires Numeral(raw, sign, groups)
    ensures AllDigits(Concat(groups)) && ParseInt(raw) == Some(Signed(sign, Num(Concat(groups))))
  {
    hide *;
    hide Join;
    hide DropUnderscores;
    hide IntDigits;
    var lead, trail := NumeralParts(raw, sign, groups);
    var digits := Join(groups, '_');
    GroupsAreDigits(groups);
    ConcatDigits(groups);
    DigitEnds(digits, sign);
    StripAround(lead, sign + digits, trail);
    SignedDigits(raw, sign, digits);
    DigitsParse(digits);
  }

  lemma NumeralParts(raw: string, sign: string, groups: seq<string>) returns (lead: string, trail: string)
    requires Numeral(raw, sign, groups)
    ensures Blank(lead) && Blank(trail) && raw == lead + (sign + Join(groups, '_')) + trail
    ensures Groups(groups) && sign in {"", "+", "-"} && forall g :: g in groups ==> AllDigits(g)
  {
    hide Blank;
    hide Join;
    lead, trail :| Blank(lead) && Blank(trail) && raw == lead + (sign + Join(groups, '_')) + trail;
  }

  lemma DigitEnds(s: string, sign: string)
    requires IntDigits(s) && sign in {"", "+", "-"}
    ensures var core := sign + s; core != "" && !IsSpace(core[0]) && !IsSpace(core[|core| - 1])
    ensures s != "" && s[0] !in {'+', '-'}
  {
  }

  lemma DigitsParse(s: string)
    ensures ParseDigits(s).Some? <==> IntDigits(s)
    ensures IntDigits(s) ==> ParseDigits(s).value == Num(DropUnderscores(s))
  {
    hide IntDigits;
  }

  /** Nothing else is a number. */
  lemma ParsedIsNumeral(raw: string) returns (sign: string, groups: seq<string>)
    requires ParseInt(raw).Some?
    ensures Numeral(raw, sign, groups)
  {
    hide *;
    var t := Strip(raw);
    sign := if t != "" && t[0] in {'-', '+'} then [t[0]] else "";
    var digits := t[|sign|..];
    assert t == sign + digits;
    SignedDigits(raw, sign, digits);
    DigitsParse(digits);
    DigitsAreGroups(digits);
    groups := Split(digits, '_');
    JoinSplit(digits, '_');
    Around(raw, sign, groups);
  }

  lemma Around(raw: string, sign: string, groups: seq<string>)
    requires Strip(raw) == sign + Join(groups, '_') && Groups(groups) && sign in {"", "+", "-"}
    ensures Numeral(raw, sign, groups)
  {
    hide *;
    var core := sign + Join(groups, '_');
    var i, j := Stripped(raw);
    assert raw == raw[..i] + core + raw[j..];
    NumeralFrom(raw, raw[..i], raw[j..], sign, groups);
  }

  lemma NumeralFrom(raw: string, lead: string, trail: string, sign: string, groups: seq<string>)
    requires raw == lead + (sign + Join(groups, '_')) + trail && Blank(lead) && Blank(trail)
    requires Groups(groups) && sign in {"", "+", "-"}
    ensures Numeral(raw, sign, groups)
  {
    hide Blank;
    hide Join;
  }

  lemma Stripped(raw: string) returns (i: nat, j: nat)
    ensures i <= j <= |raw| && Strip(raw) == raw[i..j] && Blank(raw[..i]) && Blank(raw[j..])
  {
    hide *;
    i, j :| 0 <= i <= j <= |raw| && Strip(raw) == raw[i..j] && Blank(raw[..i]) && Blank(raw[j..]);
  }

  /** `raw` spells the number `n`. */
  ghost predicate Spells(raw: string, n: int) {
    exists sign, groups ::
      Numeral(raw, sign, groups) && AllDigits(Concat(groups)) && Signed(sign, Num(Concat(groups))) == n
  }

  /** The texts `int` takes, and the number it makes of each. */
  lemma ParseIntExactly(raw: string, n: int)
    ensures ParseInt(raw) == Some(n) <==> Spells(raw, n)
  {
    hide *;
    if ParseInt(raw) == Some(n) {
      var sign, groups := ParsedIsNumeral(raw);
      NumeralParses(raw, sign, groups);
      SpelledBy(raw, sign, groups);
    }
    if Spells(raw, n) {
      var sign, groups := Spelling(raw, n);
      NumeralParses(raw, sign, groups);
    }
  }

  lemma SpelledBy(raw: string, sign: string, groups: seq<string>)
    requires Numeral(raw, sign, groups) && AllDigits(Concat(groups))
    ensures Spells(raw, Signed(sign, Num(Concat(groups))))
  {
    hide Numeral;
    hide AllDigits;
  }

  lemma Spelling(raw: string, n: int) returns (sign: string, groups: seq<string>)
    requires Spells(raw, n)
    ensures Numeral(raw, sign, groups) && AllDigits(Concat(groups)) && Signed(sign, Num(Concat(groups))) == n
  {
    hide Numeral;
    hide AllDigits;
    sign, groups :|
      Numeral(raw, sign, groups) && AllDigits(Concat(groups)) && Signed(sign, Num(Concat(groups))) == n;
  }

  // ----- whole blocks ----------------------------------------------------------------------------------

  /** The lines behind the first are fields, and the one named `content-length` spells `n`. */
  ghost predicate FieldsWithLength(lines: seq<string>, n: nat) {
    && AllFields(lines, |lines|)
    && exists raw :: Carries(lines, |lines|, "content-length", raw) && Spells(raw, n)
  }

  lemma LengthExactly(lines: seq<string>, n: nat)
    requires AddHeaders(lines, |lines|).Ok?
    ensures ContentLength(AddHeaders(lines, |lines|).value) == Ok(n)
      <==> n <= 10_485_760 && exists raw :: Carries(lines, |lines|, "content-length", raw) && Spells(raw, n)
  {
    hide AddHeaders;
    hide Carries;
    hide ParseInt;
    hide Spells;
    var headers := AddHeaders(lines, |lines|).value;
    HeadersExactly(lines, |lines|);
    if "content-length" in headers {
      assert Has(headers, "content-length", headers["content-length"]);
      ParseIntExactly(headers["content-length"], n);
    }
    forall raw | Carries(lines, |lines|, "content-length", raw)
      ensures "content-length" in headers && headers["content-length"] == raw
    {
      assert Has(headers, "content-length", raw);
    }
  }

  /** The first line and the length of a block, if it has both. */
  lemma BlockExactly(text: string, n: nat)
    ensures var lines, parts := Split(text, '\n'), SplitHeaders(Encode(text));
      && (parts.Ok? ==> parts.value.0 == lines[0] != "")
      && (parts.Ok? && ContentLength(parts.value.1) == Ok(n) <==>
            lines[0] != "" && FieldsWithLength(lines[1..], n) && n <= 10_485_760)
  {
    hide AddHeaders;
    hide AllFields;
    hide Carries;
    hide Spells;
    hide Split;
    hide ContentLength;
    var rest := Split(text, '\n')[1..];
    DecodeEncode(text);
    HeadersExactly(rest, |rest|);
    if AddHeaders(rest, |rest|).Ok? {
      LengthExactly(rest, n);
    }
  }

  /**
   The request blocks that parse: a verb, a space and a path on the first line, and fields behind it of which one
   gives a length within the cap. Other fields, and the order of all, make no difference.
   */
  lemma RequestExactly(text: string, verb: string, path: string, n: nat)
    ensures var lines := Split(text, '\n');
      ParseRequestHeaders(Encode(text)) == Ok(RequestStub(verb, path, n)) <==>
        && lines[0] == verb + " " + path && verb in {"READ", "WRITE", "LIST", "DELETE"} && path != ""
        && FieldsWithLength(lines[1..], n) && n <= 10_485_760
  {
    hide FieldsWithLength;
    hide Split;
    hide SplitHeaders;
    hide ContentLength;
    hide IndexOf;
    BlockExactly(text, n);
    if verb in VERBS {
      VerbsPlain(verb);
      FirstSpace(Split(text, '\n')[0], verb, path);
    }
  }

  lemma FirstSpace(line: string, verb: string, path: string)
    requires ' ' !in verb
    ensures var space := IndexOf(line, ' ');
      space < |line| && line[..space] == verb && line[space + 1..] == path <==> line == verb + " " + path
  {
    if line == verb + " " + path {
      assert line == verb + [' '] + path;
      IndexOfAt(verb, ' ', path);
    }
  }

  /** `word` with white space around it. */
  ghost predicate Padded(line: string, word: string) {
    exists lead, trail :: Blank(lead) && Blank(trail) && line == lead + word + trail
  }

  lemma StripExactly(line: string, word: string)
    requires word != "" && !IsSpace(word[0]) && !IsSpace(word[|word| - 1])
    ensures Strip(line) == word <==> Padded(line, word)
  {
    hide Strip;
    hide Blank;
    hide IsSpace;
    if Strip(line) == word {
      var i, j := Stripped(line);
      assert line == line[..i] + word + line[j..];
    }
    if Padded(line, word) {
      var lead, trail :| Blank(lead) && Blank(trail) && line == lead + word + trail;
      StripAround(lead, word, trail);
    }
  }

  /** The response blocks that parse: a status word with white space around it, and fields as in a request. */
  lemma ResponseExactly(text: string, status: string, n: nat)
    ensures var lines := Split(text, '\n');
      ParseResponseHeaders(Encode(text)) == Ok(ResponseStub(status, n)) <==>
        && Padded(lines[0], status) && status in {"OK", "NOT_FOUND", "SCHEMA_ERROR", "BAD_REQUEST", "SERVER_ERROR"}
        && FieldsWithLength(lines[1..], n) && n <= 10_485_760
  {
    hide FieldsWithLength;
    hide Split;
    hide SplitHeaders;
    hide ContentLength;
    hide Padded;
    hide Strip;
    BlockExactly(text, n);
    if status in STATUSES {
      StatusesPlain(status);
      StripExactly(Split(text, '\n')[0], status);
    }
    NothingPadded(status);
  }

  lemma NothingPadded(word: string)
    ensures Padded("", word) ==> word == ""
  {
  }
}

/** The fragment of regular expressions that the emitted label matchers use: alternations of literal
    names, always matched against the whole label value. */
module Regexps {
  import opened Text

  datatype Regexp =
    | Empty
    | Literal(c: char)
    | Sequence(first: Regexp, second: Regexp)
    | Either(left: Regexp, right: Regexp)

  /** Whether the whole of `s` matches `r`. */
  ghost predicate FullMatch(r: Regexp, s: string) {
    match r
    case Empty => s == ""
    case Literal(c) => s == [c]
    case Sequence(first, second) =>
      exists i :: 0 <= i <= |s| && FullMatch(first, s[..i]) && FullMatch(second, s[i..])
    case Either(left, right) => FullMatch(left, s) || FullMatch(right, s)
  }

  predicate PlainChar(c: char) {
    'a' <= c <= 'z' || '0' <= c <= '9' || c == '-'
  }

  /** Made of lower-case letters, digits and hyphens: the alphabet of section 2.1 of RFC 1123. */
  predicate PlainName(n: string) {
    forall i :: 0 <= i < |n| ==> PlainChar(n[i])
  }

  predicate PlainNames(names: seq<string>) {
    forall i :: 0 <= i < |names| ==> PlainName(names[i])
  }

  predicate PlainPattern(p: string) {
    forall i :: 0 <= i < |p| ==> PlainChar(p[i]) || p[i] == '|'
  }

  /** The contract assumed of the regexp compiler: it accepts every alternation of plain names. */
  ghost predicate CompilesPlain(compiles: string -> bool) {
    forall p :: PlainPattern(p) ==> compiles(p)
  }

  function ParseLiterals(p: string): Regexp {
    if p == "" then Empty else Sequence(Literal(p[0]), ParseLiterals(p[1..]))
  }

  /** Parses a plain pattern; `seen` holds the literals read since the last bar, which binds weakest. */
  function ParseFrom(seen: string, p: string): Regexp
    decreases |p|
  {
    if p == "" then ParseLiterals(seen)
    else if p[0] == '|' then Either(ParseLiterals(seen), ParseFrom("", p[1..]))
    else ParseFrom(seen + [p[0]], p[1..])
  }

  function Parse(p: string): Regexp {
    ParseFrom("", p)
  }

  lemma {:induction false} LiteralsMatch(p: string, s: string)
    ensures FullMatch(ParseLiterals(p), s) <==> s == p
  {
    if p != "" {
      var rest := ParseLiterals(p[1..]);
      forall i | 0 <= i <= |s| ensures FullMatch(rest, s[i..]) <==> s[i..] == p[1..] {
        LiteralsMatch(p[1..], s[i..]);
      }
      if s == p {
        assert s[..1] == [p[0]];
        assert FullMatch(Literal(p[0]), s[..1]) && FullMatch(rest, s[1..]);
      }
      if FullMatch(ParseLiterals(p), s) {
        var i :| 0 <= i <= |s| && FullMatch(Literal(p[0]), s[..i]) && FullMatch(rest, s[i..]);
        assert s == s[..i] + s[i..] == [p[0]] + p[1..] == p;
      }
    }
  }

  lemma {:induction false} ParseFromMatches(seen: string, p: string, s: string)
    requires Free('|', seen)
    ensures FullMatch(ParseFrom(seen, p), s) <==> s in Split(seen + p, '|')
    decreases |p|
  {
    LiteralsMatch(seen, s);
    if p == "" {
      SplitOfPiece(seen, '|');
      assert seen + p == seen;
    } else if p[0] == '|' {
      ParseFromMatches("", p[1..], s);
      SplitAtFirst(seen, '|', p[1..]);
      assert seen + p == seen + ['|'] + p[1..];
      assert "" + p[1..] == p[1..];
    } else {
      ParseFromMatches(seen + [p[0]], p[1..], s);
      assert seen + [p[0]] + p[1..] == seen + p;
    }
  }

  lemma {:induction false} JoinIsPlainPattern(names: seq<string>)
    requires PlainNames(names)
    ensures PlainPattern(Join(names, "|"))
  {
    if |names| > 0 {
      assert PlainName(names[0]);
      forall i | 0 <= i < |names[1..]| ensures PlainName(names[1..][i]) { assert PlainName(names[i + 1]); }
      JoinIsPlainPattern(names[1..]);
    }
  }

  /** The joined names, read as an anchored regexp, accept exactly the names, and cutting the pattern
      at the bars gives the list back with its order and its repetitions. */
  lemma AlternationMeaning(names: seq<string>)
    requires names != [] && PlainNames(names)
    ensures forall s :: FullMatch(Parse(Join(names, "|")), s) <==> s in names
    ensures Split(Join(names, "|"), '|') == names
    ensures PlainPattern(Join(names, "|"))
  {
    var p := Join(names, "|");
    JoinIsPlainPattern(names);
    forall i | 0 <= i < |names| ensures Free('|', names[i]) { assert PlainName(names[i]); }
    SplitUndoesJoin(names, '|');
    forall s ensures FullMatch(Parse(p), s) <==> s in names {
      ParseFromMatches("", p, s);
      assert "" + p == p;
    }
  }
}

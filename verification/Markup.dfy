/** Escaping markup characters by chained replacement of substrings, and the chain that undoes it. */
module Markup {
  import opened Lines

  // ----- Replacement of substrings -----

  /** Every occurrence of `pat` replaced by `sub`, from the left, without overlaps. */
  function Replace(s: string, pat: string, sub: string): string
    requires pat != ""
    decreases |s|
  {
    if s == "" then ""
    else if pat <= s then sub + Replace(s[|pat|..], pat, sub)
    else [s[0]] + Replace(s[1..], pat, sub)
  }

  /** A link of the chains: the replacement is made when the pattern is there. */
  function Link(s: string, pat: string, sub: string): string
    requires pat != ""
  {
    if Contains(s, pat) then Replace(s, pat, sub) else s
  }

  lemma {:induction false} ContainsRest(s: string, n: nat, pat: string)
    requires n <= |s| && Contains(s[n..], pat)
    ensures Contains(s, pat)
  {
    ContainsInside(s[..n], s[n..], "", pat);
    assert s[..n] + s[n..] + "" == s;
  }

  lemma {:induction false} ContainsPrefix(s: string, pat: string)
    requires pat <= s
    ensures Contains(s, pat)
  {
    assert OccursAt(s, pat, 0);
  }

  lemma {:induction false} ReplaceAbsent(s: string, pat: string, sub: string)
    requires pat != "" && !Contains(s, pat)
    ensures Replace(s, pat, sub) == s
  {
    if s != "" {
      if pat <= s {
        ContainsPrefix(s, pat);
      }
      if Contains(s[1..], pat) {
        ContainsRest(s, 1, pat);
      }
      ReplaceAbsent(s[1..], pat, sub);
    }
  }

  lemma {:induction false} LinkIsReplace(s: string, pat: string, sub: string)
    requires pat != ""
    ensures Link(s, pat, sub) == Replace(s, pat, sub)
  {
    if !Contains(s, pat) {
      ReplaceAbsent(s, pat, sub);
    }
  }

  // ----- The two chains -----

  const AMP: string := "&amp;"
  const GT: string := "&gt;"
  const LT: string := "&lt;"
  const QUOT: string := "&quot;"
  const BR: string := "<br>"

  function Escape(text: string, newline: bool): string {
    var t1 := Link(text, "&", AMP);
    var t2 := Link(t1, ">", GT);
    var t3 := Link(t2, "<", LT);
    var t4 := Link(t3, "\"", QUOT);
    var t5 := Link(t4, "\'", QUOT);
    if newline then Link(t5, "\n", BR) else t5
  }

  function Unescape(text: string): string {
    var t1 := Link(text, AMP, "&");
    var t2 := Link(t1, GT, ">");
    var t3 := Link(t2, LT, "<");
    Link(t3, QUOT, "\"")
  }

  // ----- The one-pass reference -----

  function Entity(c: char): string {
    if c == '&' then "&amp;"
    else if c == '>' then "&gt;"
    else if c == '<' then "&lt;"
    else if c == '\"' || c == '\'' then "&quot;"
    else if c == '\n' then "<br>"
    else [c]
  }

  /** Each character of `cs` replaced by its entity, all at once. */
  function Mapped(t: string, cs: set<char>): string {
    if t == "" then "" else (if t[0] in cs then Entity(t[0]) else [t[0]]) + Mapped(t[1..], cs)
  }

  /** Text in which no occurrence of the pattern starts is passed over. */
  lemma {:induction false} ReplaceSkips(e: string, s: string, pat: string, sub: string)
    requires pat != "" && forall i :: 0 <= i < |e| ==> !(pat <= (e + s)[i..])
    ensures Replace(e + s, pat, sub) == e + Replace(s, pat, sub)
  {
    if e == "" {
      assert e + s == s;
    } else {
      assert (e + s)[0..] == e + s;
      assert (e + s)[1..] == e[1..] + s;
      assert forall i :: 0 <= i < |e| - 1 ==> (e[1..] + s)[i..] == (e + s)[i + 1..];
      ReplaceSkips(e[1..], s, pat, sub);
    }
  }

  /** One more link adds one more character to the map, since no entity written so far has it. */
  lemma {:induction false} LinkExtendsMap(t: string, cs: set<char>, c: char)
    requires c !in cs && forall d :: d in cs ==> c !in Entity(d)
    ensures Replace(Mapped(t, cs), [c], Entity(c)) == Mapped(t, cs + {c})
  {
    if t != "" {
      LinkExtendsMap(t[1..], cs, c);
      var rest := Mapped(t[1..], cs);
      if t[0] == c {
        assert ([c] + rest)[1..] == rest;
      } else {
        var e := if t[0] in cs then Entity(t[0]) else [t[0]];
        assert c !in e;
        forall i | 0 <= i < |e|
          ensures !([c] <= (e + rest)[i..])
        {
          assert (e + rest)[i..][0] == e[i];
        }
        ReplaceSkips(e, rest, [c], Entity(c));
      }
    }
  }

  function EscapedChars(newline: bool): set<char> {
    if newline then {'&', '>', '<', '\"', '\'', '\n'} else {'&', '>', '<', '\"', '\''}
  }

  lemma {:induction false} MappedByNone(t: string)
    ensures Mapped(t, {}) == t
  {
    if t != "" {
      MappedByNone(t[1..]);
    }
  }

  lemma {:induction false} EntitiesAreClean()
    ensures forall c :: c in "><\"\'\n" ==> c !in AMP
    ensures forall c :: c in "<\"\'\n" ==> c !in GT
    ensures forall c :: c in "\"\'\n" ==> c !in LT
    ensures forall c :: c in "\'\n" ==> c !in QUOT
    ensures '\n' !in BR && '\'' !in BR
  {
  }

  lemma {:induction false} LinkAmpersand(t: string)
    ensures Link(t, "&", AMP) == Mapped(t, {'&'})
  {
    MappedByNone(t);
    LinkStep(t, {}, '&');
    assert {} + {'&'} == {'&'};
  }

  lemma {:induction false} LinkGt(t: string)
    ensures Link(Mapped(t, {'&'}), ">", GT) == Mapped(t, {'&', '>'})
  {
    EntitiesAreClean();
    LinkStep(t, {'&'}, '>');
    assert {'&'} + {'>'} == {'&', '>'};
  }

  lemma {:induction false} LinkLt(t: string)
    ensures Link(Mapped(t, {'&', '>'}), "<", LT) == Mapped(t, {'&', '>', '<'})
  {
    EntitiesAreClean();
    LinkStep(t, {'&', '>'}, '<');
    assert {'&', '>'} + {'<'} == {'&', '>', '<'};
  }

  lemma {:induction false} LinkQuote(t: string)
    ensures Link(Mapped(t, {'&', '>', '<'}), "\"", QUOT) == Mapped(t, {'&', '>', '<', '\"'})
  {
    EntitiesAreClean();
    LinkStep(t, {'&', '>', '<'}, '\"');
    assert {'&', '>', '<'} + {'\"'} == {'&', '>', '<', '\"'};
  }

  lemma {:induction false} LinkApostrophe(t: string)
    ensures Link(Mapped(t, {'&', '>', '<', '\"'}), "\'", QUOT) == Mapped(t, EscapedChars(false))
  {
    EntitiesAreClean();
    LinkStep(t, {'&', '>', '<', '\"'}, '\'');
    assert {'&', '>', '<', '\"'} + {'\''} == EscapedChars(false);
  }

  lemma {:induction false} LinkLineBreak(t: string)
    ensures Link(Mapped(t, EscapedChars(false)), "\n", BR) == Mapped(t, EscapedChars(true))
  {
    NoEntityHasLineBreak();
    LinkStep(t, EscapedChars(false), '\n');
    assert EscapedChars(false) + {'\n'} == EscapedChars(true);
  }

  lemma {:induction false} NoEntityHasLineBreak()
    ensures forall d :: d in EscapedChars(false) ==> '\n' !in Entity(d)
  {
  }

  /** The chain of replacements is the one-pass map, for every text. */
  lemma {:induction false} EscapeIsMap(t: string, newline: bool)
    ensures Escape(t, newline) == Mapped(t, EscapedChars(newline))
  {
    LinkAmpersand(t);
    LinkGt(t);
    LinkLt(t);
    LinkQuote(t);
    LinkApostrophe(t);
    LinkLineBreak(t);
  }

  lemma {:induction false} LinkStep(t: string, cs: set<char>, c: char)
    requires c !in cs && forall d :: d in cs ==> c !in Entity(d)
    ensures Link(Mapped(t, cs), [c], Entity(c)) == Mapped(t, cs + {c})
  {
    LinkExtendsMap(t, cs, c);
    LinkIsReplace(Mapped(t, cs), [c], Entity(c));
  }

  // ----- Undoing it -----

  /** Plain text at the start of a mapped text was there before. */
  lemma {:induction false} PlainPrefix(t: string, cs: set<char>, p: string)
    requires cs <= {'&', '>', '<', '\"'} && '&' !in p && p <= Mapped(t, cs)
    ensures p <= t
  {
    if p != "" {
      assert p[0] == Mapped(t, cs)[0] && p[0] in p;
      assert Mapped(t, cs)[1..] == Mapped(t[1..], cs);
      assert p[1..] <= Mapped(t[1..], cs);
      PlainPrefix(t[1..], cs, p[1..]);
    }
  }

  /** Entities differ in their second character and have an ampersand only at the start. */
  lemma {:induction false} EntityShape(c: char)
    requires c in {'&', '>', '<', '\"'}
    ensures var e := Entity(c);
            && |e| >= 4 && e[0] == '&' && '&' !in e[1..] && c !in e[1..]
            && e[1] == if c == '&' then 'a' else if c == '>' then 'g' else if c == '<' then 'l' else 'q'
  {
  }

  /** Any other character is passed over, as an entity or as itself. */
  lemma {:induction false} OtherIsPassed(d: char, cs: set<char>, rest: string, pat: string, sub: string)
    requires cs <= {'&', '>', '<', '\"'} && pat != "" && pat[0] == '&'
    requires !(pat <= (if d in cs then Entity(d) else [d]) + rest)
    ensures var e := if d in cs then Entity(d) else [d];
            Replace(e + rest, pat, sub) == e + Replace(rest, pat, sub)
  {
    if d in cs {
      EntityShape(d);
      PassEntity(Entity(d), rest, pat, sub);
    } else {
      assert ([d] + rest)[0..] == [d] + rest;
      ReplaceSkips([d], rest, pat, sub);
    }
  }

  /** One character of the mapped text is undone or passed over, in front of what was undone. */
  lemma {:induction false} FirstIsUndone(t: string, cs: set<char>, c: char)
    requires t != "" && c in cs && cs <= {'&', '>', '<', '\"'} && !(t[0] != c && Entity(c) <= Mapped(t, cs))
    requires Replace(Mapped(t[1..], cs), Entity(c), [c]) == Mapped(t[1..], cs - {c})
    ensures Replace(Mapped(t, cs), Entity(c), [c]) == Mapped(t, cs - {c})
  {
    var pat, rest := Entity(c), Mapped(t[1..], cs);
    EntityShape(c);
    if t[0] == c {
      assert (pat + rest)[|pat|..] == rest;
    } else {
      OtherIsPassed(t[0], cs, rest, pat, [c]);
    }
  }

  /** Undoing one entity takes one character out of the map, provided the text did not spell that
      entity itself; for the ampersand, undone first, no proviso is needed. */
  lemma {:induction false} LinkShrinksMap(t: string, cs: set<char>, c: char)
    requires c in cs && cs <= {'&', '>', '<', '\"'}
    requires '&' in cs ==> c == '&'
    requires c != '&' ==> !Contains(t, Entity(c))
    ensures Replace(Mapped(t, cs), Entity(c), [c]) == Mapped(t, cs - {c})
  {
    if t == "" {
      EntityShape(c);
    } else {
      if c != '&' && Contains(t[1..], Entity(c)) {
        ContainsRest(t, 1, Entity(c));
      }
      LinkShrinksMap(t[1..], cs, c);
      if t[0] != c {
        NotAtStart(t, cs, c);
      }
      FirstIsUndone(t, cs, c);
    }
  }

  /** A raw ampersand starts an entity in the mapped text only if it did in the text. */
  lemma {:induction false} AmpersandAtStart(t: string, cs: set<char>, pat: string)
    requires t != "" && t[0] == '&' && '&' !in cs && cs <= {'>', '<', '\"'}
    requires pat != "" && pat[0] == '&' && '&' !in pat[1..]
    ensures pat <= Mapped(t, cs) ==> pat <= t
  {
    var m, p := Mapped(t, cs), pat[1..];
    if pat <= m {
      assert m[1..] == Mapped(t[1..], cs);
      assert p <= m[1..];
      PlainPrefix(t[1..], cs, p);
      assert t == ['&'] + t[1..] && pat == ['&'] + p;
    }
  }

  lemma {:induction false} NotAtStart(t: string, cs: set<char>, c: char)
    requires t != "" && t[0] != c && c in cs && cs <= {'&', '>', '<', '\"'}
    requires '&' in cs ==> c == '&'
    requires c != '&' ==> !Contains(t, Entity(c))
    ensures !(Entity(c) <= Mapped(t, cs))
  {
    EntityShape(c);
    var pat, m := Entity(c), Mapped(t, cs);
    if t[0] in cs {
      EntityShape(t[0]);
      assert m[1] == Entity(t[0])[1];
    } else if t[0] == '&' {
      AmpersandAtStart(t, cs, pat);
      if pat <= t {
        ContainsPrefix(t, pat);
      }
    } else {
      assert m[0] == t[0];
    }
  }

  /** A different entity is passed over whole. */
  lemma {:induction false} PassEntity(e: string, s: string, pat: string, sub: string)
    requires pat != "" && pat[0] == '&' && e != "" && '&' !in e[1..] && !(pat <= e + s)
    ensures Replace(e + s, pat, sub) == e + Replace(s, pat, sub)
  {
    assert (e + s)[0..] == e + s;
    forall i | 0 <= i < |e|
      ensures !(pat <= (e + s)[i..])
    {
      if i > 0 {
        assert (e + s)[i..][0] == e[1..][i - 1] && e[1..][i - 1] in e[1..];
      }
    }
    ReplaceSkips(e, s, pat, sub);
  }

  lemma {:induction false} MappedSame(t: string, cs: set<char>, ds: set<char>)
    requires forall c :: c in t ==> (c in cs <==> c in ds)
    ensures Mapped(t, cs) == Mapped(t, ds)
  {
    if t != "" {
      assert t[0] in t;
      MappedSame(t[1..], cs, ds);
    }
  }

  lemma {:induction false} UnescapeOfMap(t: string)
    requires !Contains(t, GT) && !Contains(t, LT) && !Contains(t, QUOT)
    ensures Unescape(Mapped(t, {'&', '>', '<', '\"'})) == t
  {
    var s4: set<char> := {'&', '>', '<', '\"'};
    LinkShrinksMap(t, s4, '&');
    LinkIsReplace(Mapped(t, s4), AMP, "&");
    var s3 := s4 - {'&'};
    LinkShrinksMap(t, s3, '>');
    LinkIsReplace(Mapped(t, s3), GT, ">");
    var s2 := s3 - {'>'};
    LinkShrinksMap(t, s2, '<');
    LinkIsReplace(Mapped(t, s2), LT, "<");
    var s1 := s2 - {'<'};
    LinkShrinksMap(t, s1, '\"');
    LinkIsReplace(Mapped(t, s1), QUOT, "\"");
    assert s1 - {'\"'} == {};
    MappedByNone(t);
  }

  // ----- What can never come back -----

  lemma {:induction false} ReplaceBringsNo(s: string, pat: string, sub: string, c: char)
    requires pat != "" && c !in s && c !in sub
    ensures c !in Replace(s, pat, sub)
    decreases |s|
  {
    if s != "" {
      if pat <= s {
        ReplaceBringsNo(s[|pat|..], pat, sub, c);
      } else {
        ReplaceBringsNo(s[1..], pat, sub, c);
      }
    }
  }

  lemma {:induction false} MappedAway(t: string, cs: set<char>, c: char)
    requires c in cs && forall d :: d in cs ==> c !in Entity(d)
    ensures c !in Mapped(t, cs)
  {
    if t != "" {
      MappedAway(t[1..], cs, c);
    }
  }

  lemma {:induction false} UnescapeBringsNo(s: string, c: char)
    requires c !in s && c !in "&><\""
    ensures c !in Unescape(s)
  {
    LinkIsReplace(s, AMP, "&");
    ReplaceBringsNo(s, AMP, "&", c);
    var t1 := Replace(s, AMP, "&");
    LinkIsReplace(t1, GT, ">");
    ReplaceBringsNo(t1, GT, ">", c);
    var t2 := Replace(t1, GT, ">");
    LinkIsReplace(t2, LT, "<");
    ReplaceBringsNo(t2, LT, "<", c);
    var t3 := Replace(t2, LT, "<");
    LinkIsReplace(t3, QUOT, "\"");
    ReplaceBringsNo(t3, QUOT, "\"", c);
  }

  /** Text without `x` at the start of the result stood at the start of the source. */
  lemma {:induction false} PrefixOfReplaced(s: string, pat: string, x: char, p: string)
    requires pat != "" && x !in p && p <= Replace(s, pat, [x])
    ensures p <= s
  {
    if p != "" {
      assert p[0] == Replace(s, pat, [x])[0] && p[0] in p;
      assert !(pat <= s) && s != "";
      assert Replace(s, pat, [x])[1..] == Replace(s[1..], pat, [x]);
      PrefixOfReplaced(s[1..], pat, x, p[1..]);
    }
  }

  lemma {:induction false} ContainsLater(s: string, pat: string)
    requires s != "" && Contains(s, pat) && !(pat <= s)
    ensures Contains(s[1..], pat)
  {
    var i: nat :| i + |pat| <= |s| && OccursAt(s, pat, i);
    assert i > 0 && s[1..][i - 1..i - 1 + |pat|] == s[i..i + |pat|];
    assert OccursAt(s[1..], pat, i - 1);
  }

  /** Replacing by a character outside `q` cannot make `q` appear: not when it was absent, and
      not when it is what is replaced. */
  lemma {:induction false} ReplaceMakesNo(s: string, pat: string, x: char, q: string)
    requires pat != "" && q != "" && x !in q && (q == pat || !Contains(s, q))
    ensures !Contains(Replace(s, pat, [x]), q)
    decreases |s|
  {
    var r := Replace(s, pat, [x]);
    if s != "" {
      var n := if pat <= s then |pat| else 1;
      if q != pat && Contains(s[n..], q) {
        ContainsRest(s, n, q);
      }
      ReplaceMakesNo(s[n..], pat, x, q);
      NotPrefix(s, pat, x, q);
      assert r[1..] == Replace(s[n..], pat, [x]);
      if Contains(r, q) {
        ContainsLater(r, q);
      }
    }
  }

  lemma {:induction false} NotPrefix(s: string, pat: string, x: char, q: string)
    requires pat != "" && q != "" && x !in q && (q == pat || !Contains(s, q))
    ensures !(q <= Replace(s, pat, [x]))
  {
    assert q[0] in q;
    if q <= s {
      ContainsPrefix(s, q);
    }
    if q <= Replace(s, pat, [x]) {
      PrefixOfReplaced(s, pat, x, q);
    }
  }

  /** Whatever is unescaped, none of three entities is left. */
  lemma {:induction false} UnescapedHasNoEntity(s: string)
    ensures var r := Unescape(s); !Contains(r, GT) && !Contains(r, LT) && !Contains(r, QUOT)
  {
    var t1 := Link(s, AMP, "&");
    LinkIsReplace(t1, GT, ">");
    var t2 := Replace(t1, GT, ">");
    ReplaceMakesNo(t1, GT, '>', GT);
    LinkIsReplace(t2, LT, "<");
    var t3 := Replace(t2, LT, "<");
    ReplaceMakesNo(t2, LT, '<', GT);
    ReplaceMakesNo(t2, LT, '<', LT);
    LinkIsReplace(t3, QUOT, "\"");
    ReplaceMakesNo(t3, QUOT, '\"', GT);
    ReplaceMakesNo(t3, QUOT, '\"', LT);
    ReplaceMakesNo(t3, QUOT, '\"', QUOT);
  }

  predicate Reversible(t: string, newline: bool) {
    '\'' !in t && !Contains(t, GT) && !Contains(t, LT) && !Contains(t, QUOT) && (newline ==> '\n' !in t)
  }

  lemma {:induction false} ReversibleComesBack(t: string, newline: bool)
    requires Reversible(t, newline)
    ensures Unescape(Escape(t, newline)) == t
  {
    EscapeIsMap(t, newline);
    MappedSame(t, EscapedChars(newline), {'&', '>', '<', '\"'});
    UnescapeOfMap(t);
  }

  lemma {:induction false} EscapedHasNo(t: string, newline: bool, c: char)
    requires c == '\'' || (newline && c == '\n')
    ensures c !in Unescape(Escape(t, newline))
  {
    EscapeIsMap(t, newline);
    EscapedIsClean(newline, c);
    MappedAway(t, EscapedChars(newline), c);
    UnescapeBringsNo(Escape(t, newline), c);
  }

  lemma {:induction false} EscapedIsClean(newline: bool, c: char)
    requires c == '\'' || (newline && c == '\n')
    ensures c in EscapedChars(newline) && forall d :: d in EscapedChars(newline) ==> c !in Entity(d)
  {
  }

  /** Unescaping undoes escaping if and only if the text has no apostrophe, spells none of the three
      entities that are undone after the ampersand, and, when line breaks were escaped too, has
      none. */
  lemma {:induction false} RoundTrip(t: string, newline: bool)
    ensures Unescape(Escape(t, newline)) == t <==> Reversible(t, newline)
  {
    if Reversible(t, newline) {
      ReversibleComesBack(t, newline);
    } else {
      UnescapedHasNoEntity(Escape(t, newline));
      EscapedHasNo(t, newline, '\'');
      if newline {
        EscapedHasNo(t, newline, '\n');
      }
    }
  }

  /** Both ways to fail: an apostrophe comes back as a quote, and text that spells an entity is
      undone once too often. */
  lemma {:induction false} EscapeIsNotUndone()
    ensures Unescape(Escape("\'", false)) == "\""
    ensures Unescape(Escape("&gt;", false)) != "&gt;"
  {
    var quote, apostrophe := "\"", "\'";
    EscapeIsMap(apostrophe, false);
    var cs: set<char> := {'&', '>', '<', '\"'};
    assert quote[1..] == "" && apostrophe[1..] == "";
    assert Mapped(quote, cs) == QUOT + "" == Mapped(apostrophe, EscapedChars(false));
    UnescapeOfMap(quote);
    ContainsPrefix(GT, GT);
    RoundTrip("&gt;", false);
  }
}

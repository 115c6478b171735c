/** Font enumeration defense: pages see only a fixed list of web-safe font
    families, matched without regard to letter case or surrounding white space. */
module Fonts {
  import opened Text
  import opened Seqs

  /** The families exposed to pages: the five generic families, then common
      cross-platform fonts. */
  const ALLOWED_FONTS: seq<string> := [
    "serif", "sans-serif", "monospace", "cursive", "fantasy",
    "Arial", "Helvetica", "Times New Roman", "Times", "Courier New", "Courier",
    "Georgia", "Verdana", "Trebuchet MS"]

  datatype FontDefense = FontDefense(allowedFonts: seq<string>)

  /** Every allowed name is nonempty and has no white space at its ends. */
  predicate WellFormedNames(d: FontDefense)
  {
    forall i :: 0 <= i < |d.allowedFonts| ==> |d.allowedFonts[i]| > 0 && Trimmed(d.allowedFonts[i])
  }

  /** `FontDefense::new` (and `default`): the fixed list. */
  function NewFontDefense(): (d: FontDefense)
    ensures d.allowedFonts == ALLOWED_FONTS
    ensures WellFormedNames(d)
  {
    FontDefense(ALLOWED_FONTS)
  }

  /** `is_font_allowed`: the trimmed, lower-cased name equals some allowed name,
      lower-cased. */
  predicate IsFontAllowed(d: FontDefense, name: string)
  {
    ListedAs(d.allowedFonts, Lower(Trim(name)))
  }

  /** Some name of `fonts`, lower-cased, is `normalized`. */
  predicate ListedAs(fonts: seq<string>, normalized: string)
  {
    |fonts| > 0 && (Lower(fonts[0]) == normalized || ListedAs(fonts[1..], normalized))
  }

  lemma {:induction false} ListedAsIndex(fonts: seq<string>, normalized: string)
    ensures ListedAs(fonts, normalized) <==> exists i :: 0 <= i < |fonts| && Lower(fonts[i]) == normalized
  {
    if |fonts| > 0 {
      ListedAsIndex(fonts[1..], normalized);
      if ListedAs(fonts[1..], normalized) {
        var i :| 0 <= i < |fonts| - 1 && Lower(fonts[1..][i]) == normalized;
        assert Lower(fonts[i + 1]) == normalized;
      }
      if exists i :: 0 <= i < |fonts| && Lower(fonts[i]) == normalized {
        var i :| 0 <= i < |fonts| && Lower(fonts[i]) == normalized;
        if i > 0 {
          assert Lower(fonts[1..][i - 1]) == normalized;
        }
      }
    }
  }

  lemma LowerIdempotent(s: string)
    ensures Lower(Lower(s)) == Lower(s)
  {
  }

  /** Lower-casing keeps a string trimmed: it never makes or removes white space. */
  lemma LowerKeepsTrimmed(s: string)
    requires Trimmed(s)
    ensures Trimmed(Lower(s))
  {
  }

  /** The check depends only on the normalized name: a name is allowed exactly when
      its trimmed, lower-cased form is. */
  lemma AllowedDependsOnNormalForm(d: FontDefense, name: string)
    ensures IsFontAllowed(d, name) <==> IsFontAllowed(d, Lower(Trim(name)))
  {
    var t := Trim(name);
    TrimIsTrimmed(name);
    LowerKeepsTrimmed(t);
    TrimOfTrimmed(Lower(t));
    LowerIdempotent(t);
    assert Lower(Trim(Lower(t))) == Lower(t);
  }

  /** Every listed family is allowed, in any case and with any white space around
      it that a trimmed name can carry. */
  lemma ListedFontsAllowed(d: FontDefense, i: nat)
    requires WellFormedNames(d) && i < |d.allowedFonts|
    ensures IsFontAllowed(d, d.allowedFonts[i])
    ensures IsFontAllowed(d, Lower(d.allowedFonts[i]))
    ensures IsFontAllowed(d, " " + d.allowedFonts[i])
  {
    var f := d.allowedFonts[i];
    ListedAsIndex(d.allowedFonts, Lower(f));
    TrimOfTrimmed(f);
    LowerKeepsTrimmed(f);
    TrimOfTrimmed(Lower(f));
    LowerIdempotent(f);
  }

  // ---------------------------------------------------------------- filter_fonts

  function Allows(d: FontDefense): string -> bool
  {
    name => IsFontAllowed(d, name)
  }

  /** `filter_fonts`: the allowed names of a list, in order. */
  function FilterFonts(d: FontDefense, fonts: seq<string>): (r: seq<string>)
    ensures |r| <= |fonts|
    ensures forall f :: f in r ==> f in fonts && IsFontAllowed(d, f)
  {
    Filter(fonts, Allows(d))
  }

  /** A name survives exactly when it is in the list and allowed; the survivors keep
      their order, and filtering again changes nothing. */
  lemma FilterFontsKeepsExactlyAllowed(d: FontDefense, fonts: seq<string>)
    ensures forall f :: f in FilterFonts(d, fonts) <==> f in fonts && IsFontAllowed(d, f)
    ensures IsSubsequence(FilterFonts(d, fonts), fonts)
    ensures FilterFonts(d, FilterFonts(d, fonts)) == FilterFonts(d, fonts)
  {
    forall f
      ensures f in FilterFonts(d, fonts) <==> f in fonts && IsFontAllowed(d, f)
    {
      FilterMembership(fonts, Allows(d), f);
    }
    FilterIsSubsequence(fonts, Allows(d));
    FilterIdempotent(fonts, Allows(d));
  }

  // ---------------------------------------------------------------- sanitize_font_family

  predicate IsQuote(c: char)
  {
    c == '"' || c == '\''
  }

  function StripLeadingQuotes(s: string): (r: string)
    ensures |r| <= |s| && r == s[|s| - |r|..]
    ensures |r| > 0 ==> !IsQuote(r[0])
  {
    if |s| > 0 && IsQuote(s[0]) then StripLeadingQuotes(s[1..]) else s
  }

  function StripTrailingQuotes(s: string): (r: string)
    ensures |r| <= |s| && r == s[..|r|]
    ensures |r| > 0 ==> !IsQuote(r[|r| - 1])
  {
    if |s| > 0 && IsQuote(s[|s| - 1]) then StripTrailingQuotes(s[..|s| - 1]) else s
  }

  /** `trim_matches` on double and single quotes: every quote at either end goes. */
  function StripQuotes(s: string): (r: string)
    ensures |r| <= |s|
    ensures |r| > 0 ==> !IsQuote(r[0]) && !IsQuote(r[|r| - 1])
  {
    var t := StripLeadingQuotes(s);
    var r := StripTrailingQuotes(t);
    assert |r| > 0 ==> r[0] == t[0];
    r
  }

  /** A name with no quote at either end is its own unquoted form, ... */
  lemma StripQuotesUnquoted(s: string)
    requires |s| == 0 || (!IsQuote(s[0]) && !IsQuote(s[|s| - 1]))
    ensures StripQuotes(s) == s
  {
  }

  /** ... and one quoted once is the name inside. */
  lemma StripQuotesQuoted(s: string, q: char)
    requires IsQuote(q) && |s| > 0 && !IsQuote(s[0]) && !IsQuote(s[|s| - 1])
    ensures StripQuotes([q] + s + [q]) == s
  {
    var t := [q] + s + [q];
    assert t[1..] == s + [q];
    assert StripLeadingQuotes(s + [q]) == s + [q];
    assert StripLeadingQuotes(t) == s + [q];
    assert (s + [q])[..|s|] == s;
    assert StripTrailingQuotes(s) == s;
  }

  /** A comma-free trimmed entry. */
  predicate CleanEntry(e: string)
  {
    ',' !in e && Trimmed(e)
  }

  /** The comma-separated entries of a `font-family` value, each trimmed. */
  function Entries(css: string): (r: seq<string>)
    ensures |r| == |Split(css, ',')| > 0
  {
    TrimAll(Split(css, ','))
  }

  /** Each string trimmed: `.map(|s| s.trim())`. */
  function TrimAll(pieces: seq<string>): (r: seq<string>)
    ensures |r| == |pieces|
  {
    if |pieces| == 0 then [] else [Trim(pieces[0])] + TrimAll(pieces[1..])
  }

  /** An entry stays when its name, without its quotes, is allowed. */
  predicate KeepsEntry(d: FontDefense, e: string)
  {
    IsFontAllowed(d, StripQuotes(e))
  }

  function KeepsFamily(d: FontDefense): string -> bool
  {
    e => KeepsEntry(d, e)
  }

  /** The entries that stay, in order. */
  function Kept(d: FontDefense, css: string): seq<string>
  {
    Filter(Entries(css), KeepsFamily(d))
  }

  const FALLBACK_FAMILY := "sans-serif"

  /** `sanitize_font_family`: the kept entries joined by `", "`, or `sans-serif`
      when none is kept. */
  function SanitizeFontFamily(d: FontDefense, css: string): string
  {
    if |Kept(d, css)| == 0 then FALLBACK_FAMILY else Join(Kept(d, css), ", ")
  }

  /** Trimmed comma-free pieces give trimmed comma-free strings. */
  lemma {:induction false} TrimAllClean(pieces: seq<string>)
    requires forall i :: 0 <= i < |pieces| ==> ',' !in pieces[i]
    ensures forall e :: e in TrimAll(pieces) ==> CleanEntry(e)
  {
    if |pieces| > 0 {
      assert CleanEntry(Trim(pieces[0])) by {
        TrimIsTrimmed(pieces[0]);
      }
      TrimAllClean(pieces[1..]);
    }
  }

  /** Every entry is comma-free and trimmed. */
  lemma EntriesAreClean(css: string)
    ensures forall e :: e in Entries(css) ==> CleanEntry(e)
  {
    TrimAllClean(Split(css, ','));
  }

  /** Trimming strings that were trimmed before a space was put in front of each
      gives them back. */
  lemma {:induction false} TrimAllSpaced(ps: seq<string>)
    requires forall e :: e in ps ==> Trimmed(e)
    ensures TrimAll(Spaced(ps)) == ps
  {
    if |ps| > 0 {
      var sp := Spaced(ps);
      assert sp == [" " + ps[0]] + Spaced(ps[1..]);
      assert Trim(" " + ps[0]) == ps[0] by {
        TrimOfTrimmed(ps[0]);
      }
      assert TrimAll(Spaced(ps[1..])) == ps[1..] by {
        TrimAllSpaced(ps[1..]);
      }
    }
  }

  /** The pieces of a `", "`-join, trimmed, are the parts that were joined. */
  lemma TrimAllLeadSpaced(pieces: seq<string>, first: string, others: seq<string>)
    requires Trimmed(first) && forall e :: e in others ==> Trimmed(e)
    requires pieces == [first] + Spaced(others)
    ensures TrimAll(pieces) == [first] + others
  {
    TrimOfTrimmed(first);
    TrimAllSpaced(others);
    assert pieces[1..] == Spaced(others);
  }

  /** The entries of a list are its comma-separated pieces, trimmed. */
  lemma EntriesArePieces(css: string, pieces: seq<string>)
    requires Split(css, ',') == pieces
    ensures Entries(css) == TrimAll(pieces)
  {
  }

  /** Text that splits into trimmed parts, each after the first led by one space,
      has those parts as its entries. */
  lemma EntriesOfSplit(css: string, parts: seq<string>)
    requires |parts| > 0
    requires Trimmed(parts[0]) && forall e :: e in parts[1..] ==> Trimmed(e)
    requires Split(css, ',') == [parts[0]] + Spaced(parts[1..])
    ensures Entries(css) == parts
  {
    var first, others := parts[0], parts[1..];
    EntriesArePieces(css, [first] + Spaced(others));
    TrimAllLeadSpaced([first] + Spaced(others), first, others);
    assert parts == [first] + others;
  }

  /** A `", "`-join of clean entries splits at its commas into the entries, each
      after the first led by the space of the separator. */
  lemma SplitJoinedEntries(parts: seq<string>)
    requires |parts| > 0
    requires forall e :: e in parts ==> CleanEntry(e)
    ensures Split(Join(parts, ", "), ',') == [parts[0]] + Spaced(parts[1..])
  {
    assert forall p :: p in parts ==> ',' !in p;
    SplitJoined(parts);
  }

  /** Clean entries are trimmed. */
  lemma CleanEntriesTrimmed(parts: seq<string>)
    requires |parts| > 0
    requires forall e :: e in parts ==> CleanEntry(e)
    ensures Trimmed(parts[0]) && forall e :: e in parts[1..] ==> Trimmed(e)
  {
    assert parts[0] in parts && forall e :: e in parts[1..] ==> e in parts;
  }

  /** Splitting a `", "`-join of clean entries gives the entries back. */
  lemma EntriesOfJoin(parts: seq<string>)
    requires |parts| > 0
    requires forall e :: e in parts ==> CleanEntry(e)
    ensures Entries(Join(parts, ", ")) == parts
  {
    SplitJoinedEntries(parts);
    CleanEntriesTrimmed(parts);
    EntriesOfSplit(Join(parts, ", "), parts);
  }

  /** When something is kept, the sanitized value reads back as exactly the kept
      entries: no entry is merged, split or altered by the join. */
  lemma SanitizedReadsBack(d: FontDefense, css: string)
    requires |Kept(d, css)| > 0
    ensures Entries(SanitizeFontFamily(d, css)) == Kept(d, css)
  {
    var k := Kept(d, css);
    assert forall e :: e in k ==> CleanEntry(e) by {
      EntriesAreClean(css);
    }
    EntriesOfJoin(k);
  }

  /** A kept entry is one of the value's entries whose unquoted name is allowed,
      and every such entry is kept. */
  lemma KeptExactlyAllowed(d: FontDefense, css: string, e: string)
    ensures e in Kept(d, css) <==> e in Entries(css) && IsFontAllowed(d, StripQuotes(e))
  {
    FilterMembership(Entries(css), KeepsFamily(d), e);
  }

  /** With nonempty allowed names the result is never empty. */
  lemma SanitizeNeverEmpty(d: FontDefense, css: string)
    requires WellFormedNames(d)
    ensures |SanitizeFontFamily(d, css)| > 0
  {
    var k := Kept(d, css);
    if |k| > 0 {
      assert KeepsEntry(d, k[0]) by {
        assert k[0] in k;
      }
      assert |k[0]| > 0 by {
        var name := StripQuotes(k[0]);
        ListedAsIndex(d.allowedFonts, Lower(Trim(name)));
        var i :| 0 <= i < |d.allowedFonts| && Lower(d.allowedFonts[i]) == Lower(Trim(name));
        assert |Trim(name)| > 0;
      }
      JoinStartsWith(k, ", ");
    }
  }

  lemma FallbackEntries()
    ensures Entries(FALLBACK_FAMILY) == [FALLBACK_FAMILY]
  {
    assert Trimmed(FALLBACK_FAMILY);
    EntriesOfJoin([FALLBACK_FAMILY]);
  }

  /** Sanitizing a sanitized value changes nothing, as long as the fallback family
      is itself allowed. */
  lemma SanitizeIdempotent(d: FontDefense, css: string)
    requires IsFontAllowed(d, FALLBACK_FAMILY)
    ensures SanitizeFontFamily(d, SanitizeFontFamily(d, css)) == SanitizeFontFamily(d, css)
  {
    if |Kept(d, css)| == 0 {
      FallbackKept(d);
    } else {
      SanitizedKept(d, css);
    }
  }

  /** The fallback family, when allowed, keeps itself. */
  lemma FallbackKept(d: FontDefense)
    requires IsFontAllowed(d, FALLBACK_FAMILY)
    ensures Kept(d, FALLBACK_FAMILY) == [FALLBACK_FAMILY]
  {
    assert KeepsEntry(d, FALLBACK_FAMILY) by {
      StripQuotesUnquoted(FALLBACK_FAMILY);
    }
    FallbackEntries();
    FilterSingleton(FALLBACK_FAMILY, KeepsFamily(d));
  }

  /** A sanitized value that kept some entries keeps all of them again. */
  lemma SanitizedKept(d: FontDefense, css: string)
    requires |Kept(d, css)| > 0
    ensures Kept(d, SanitizeFontFamily(d, css)) == Kept(d, css)
  {
    SanitizedReadsBack(d, css);
    FilterKeepsAll(Kept(d, css), KeepsFamily(d));
  }

  // ---------------------------------------------------------------- examples

  /** A name is allowed when its normal form is that of one listed name. */
  lemma AllowedThrough(d: FontDefense, name: string, i: nat)
    requires i < |d.allowedFonts| && Lower(d.allowedFonts[i]) == Lower(Trim(name))
    ensures IsFontAllowed(d, name)
  {
    ListedAsIndex(d.allowedFonts, Lower(Trim(name)));
  }

  /** A normal form is not listed when every listed name differs from it in length
      or in its first letter. */
  lemma {:induction false} NotListed(fonts: seq<string>, n: string)
    requires forall f :: f in fonts ==> |f| != |n| || (|n| > 0 && LowerChar(f[0]) != n[0])
    ensures !ListedAs(fonts, n)
  {
    if |fonts| > 0 {
      assert fonts[0] in fonts;
      assert Lower(fonts[0]) != n by {
        if |fonts[0]| == |n| {
          assert Lower(fonts[0])[0] == LowerChar(fonts[0][0]);
        }
      }
      assert forall f :: f in fonts[1..] ==> f in fonts;
      NotListed(fonts[1..], n);
    }
  }

  lemma NewAllowsSansSerif()
    ensures IsFontAllowed(NewFontDefense(), FALLBACK_FAMILY)
  {
    ListedFontsAllowed(NewFontDefense(), 1);
  }

  lemma ArialAllowed()
    ensures IsFontAllowed(NewFontDefense(), "Arial")
  {
    ListedFontsAllowed(NewFontDefense(), 5);
  }

  lemma LowerArialAllowed()
    ensures IsFontAllowed(NewFontDefense(), "arial")
  {
    ArialAllowed();
    ArialCaseAgree();
    SameNormalForm(NewFontDefense(), "arial", "Arial");
  }

  /** "arial" and "Arial" have the same normal form. */
  lemma ArialCaseAgree()
    ensures Lower(Trim("arial")) == Lower(Trim("Arial"))
  {
    var upper, lower := "Arial", "arial";
    assert Trimmed(upper) && Trimmed(lower);
    assert forall i :: 0 <= i < 5 ==> LowerChar(upper[i]) == lower[i] && LowerChar(lower[i]) == lower[i];
    TrimmedNormalForm(upper, lower);
    TrimmedNormalForm(lower, lower);
  }

  /** The normal form of a trimmed name is its letter-by-letter lower case. */
  lemma TrimmedNormalForm(s: string, t: string)
    requires Trimmed(s) && |s| == |t|
    requires forall i :: 0 <= i < |s| ==> LowerChar(s[i]) == t[i]
    ensures Lower(Trim(s)) == t
  {
    TrimOfTrimmed(s);
  }

  /** Names with the same normal form are allowed alike. */
  lemma SameNormalForm(d: FontDefense, a: string, b: string)
    requires Lower(Trim(a)) == Lower(Trim(b))
    ensures IsFontAllowed(d, a) == IsFontAllowed(d, b)
  {
  }

  lemma PaddedArialAllowed()
    ensures IsFontAllowed(NewFontDefense(), " Arial ")
  {
    assert Trim(" Arial ") == "Arial" by {
      assert " Arial " == " " + "Arial" + " ";
      TrimPadded("Arial");
    }
    ArialAllowed();
    AllowedAfterTrim(NewFontDefense(), " Arial ", "Arial");
  }

  /** A name whose trim is an allowed trimmed name is allowed. */
  lemma AllowedAfterTrim(d: FontDefense, name: string, t: string)
    requires Trim(name) == t && Trimmed(t) && IsFontAllowed(d, t)
    ensures IsFontAllowed(d, name)
  {
    TrimOfTrimmed(t);
  }

  /** The lengths of the listed names... */
  lemma AllowedLengths()
    ensures forall f :: f in ALLOWED_FONTS ==> |f| in {5, 7, 9, 10, 11, 12, 15}
  {
  }

  /** ... and the initials of those of length 10, 12 and 15. */
  lemma AllowedInitials()
    ensures forall f :: f in ALLOWED_FONTS && |f| in {10, 12, 15} ==> LowerChar(f[0]) in {'s', 't'}
  {
  }

  /** A trimmed name is refused when no listed name has its length and initial. */
  lemma RefusedByShape(name: string)
    requires Trimmed(name) && |name| > 0 && |name| !in {5, 7, 9, 11}
    requires |name| in {10, 12, 15} ==> LowerChar(name[0]) !in {'s', 't'}
    ensures !IsFontAllowed(NewFontDefense(), name)
  {
    TrimOfTrimmed(name);
    AllowedLengths();
    AllowedInitials();
    NotListedShape(ALLOWED_FONTS, Lower(name));
  }

  lemma NotListedShape(fonts: seq<string>, n: string)
    requires forall f :: f in fonts ==> |f| in {5, 7, 9, 10, 11, 12, 15}
    requires forall f :: f in fonts && |f| in {10, 12, 15} ==> LowerChar(f[0]) in {'s', 't'}
    requires |n| > 0 && |n| !in {5, 7, 9, 11}
    requires |n| in {10, 12, 15} ==> n[0] !in {'s', 't'}
    ensures !ListedAs(fonts, n)
  {
    NotListed(fonts, n);
  }

  lemma ComicSansRefused()
    ensures !IsFontAllowed(NewFontDefense(), "Comic Sans MS")
  {
    RefusedByShape("Comic Sans MS");
  }

  lemma CustomFontRefused()
    ensures !IsFontAllowed(NewFontDefense(), "CustomFont")
  {
    RefusedByShape("CustomFont");
  }

  lemma VerdanaAllowed()
    ensures IsFontAllowed(NewFontDefense(), "Verdana")
  {
    ListedFontsAllowed(NewFontDefense(), 12);
  }

  /** The filter example of the source's tests. */
  lemma FilterFontsExample()
    ensures FilterFonts(NewFontDefense(), ["Arial", "Comic Sans MS", "Verdana"]) == ["Arial", "Verdana"]
  {
    var keep := Allows(NewFontDefense());
    assert keep("Arial") by {
      ArialAllowed();
    }
    assert !keep("Comic Sans MS") by {
      ComicSansRefused();
    }
    assert keep("Verdana") by {
      VerdanaAllowed();
    }
    FilterDropMiddle("Arial", "Comic Sans MS", "Verdana", keep);
  }

  /** Three clean entries of which the middle one is refused: the sanitized value
      is the other two. */
  lemma SanitizeDropsMiddle(d: FontDefense, a: string, b: string, c: string)
    requires CleanEntry(a) && CleanEntry(b) && CleanEntry(c)
    requires KeepsEntry(d, a) && !KeepsEntry(d, b) && KeepsEntry(d, c)
    ensures SanitizeFontFamily(d, Join([a, b, c], ", ")) == Join([a, c], ", ")
  {
    calc {
      Kept(d, Join([a, b, c], ", "));
      { EntriesOfJoin([a, b, c]); }
      Filter([a, b, c], KeepsFamily(d));
      { FilterDropMiddle(a, b, c, KeepsFamily(d)); }
      [a, c];
    }
  }

  /** Two clean entries, both refused: the sanitized value is the fallback. */
  lemma SanitizeDropsBoth(d: FontDefense, a: string, b: string)
    requires CleanEntry(a) && CleanEntry(b)
    requires !KeepsEntry(d, a) && !KeepsEntry(d, b)
    ensures SanitizeFontFamily(d, Join([a, b], ", ")) == FALLBACK_FAMILY
  {
    calc {
      Kept(d, Join([a, b], ", "));
      { EntriesOfJoin([a, b]); }
      Filter([a, b], KeepsFamily(d));
      { FilterDropBoth(a, b, KeepsFamily(d)); }
      [];
    }
  }

  lemma ArialEntryKept()
    ensures KeepsEntry(NewFontDefense(), "Arial")
  {
    StripQuotesUnquoted("Arial");
    ArialAllowed();
  }

  lemma FallbackEntryKept()
    ensures KeepsEntry(NewFontDefense(), FALLBACK_FAMILY)
  {
    StripQuotesUnquoted(FALLBACK_FAMILY);
    NewAllowsSansSerif();
  }

  lemma QuotedComicSansDropped()
    ensures !KeepsEntry(NewFontDefense(), "'Comic Sans MS'")
  {
    assert "'Comic Sans MS'" == ['\''] + "Comic Sans MS" + ['\''];
    StripQuotesQuoted("Comic Sans MS", '\'');
    ComicSansRefused();
  }

  lemma JoinThree(a: string, b: string, c: string, sep: string)
    ensures Join([a, b, c], sep) == a + sep + b + sep + c
  {
    assert [a, b, c][1..] == [b, c];
    assert [b, c][1..] == [c];
    assert Join([b, c], sep) == b + sep + c;
    assert a + sep + (b + sep + c) == a + sep + b + sep + c;
  }

  lemma FirstExampleJoin()
    ensures Join(["Arial", "'Comic Sans MS'", FALLBACK_FAMILY], ", ") == "Arial, 'Comic Sans MS', sans-serif"
  {
    JoinThree("Arial", "'Comic Sans MS'", FALLBACK_FAMILY, ", ");
  }

  lemma FirstExampleResult()
    ensures Join(["Arial", FALLBACK_FAMILY], ", ") == "Arial, sans-serif"
  {
  }

  lemma FirstExampleClean()
    ensures CleanEntry("Arial") && CleanEntry("'Comic Sans MS'") && CleanEntry(FALLBACK_FAMILY)
  {
  }

  /** The first sanitizing example: the quoted unknown family goes. */
  lemma SanitizeExample()
    ensures SanitizeFontFamily(NewFontDefense(), "Arial, 'Comic Sans MS', sans-serif") == "Arial, sans-serif"
  {
    FirstExampleJoin();
    FirstExampleResult();
    FirstExampleClean();
    ArialEntryKept();
    QuotedComicSansDropped();
    FallbackEntryKept();
    SanitizeDropsMiddle(NewFontDefense(), "Arial", "'Comic Sans MS'", FALLBACK_FAMILY);
  }

  lemma UnknownFontRefused()
    ensures !IsFontAllowed(NewFontDefense(), "Unknown Font")
  {
    RefusedByShape("Unknown Font");
  }

  lemma AnotherUnknownRefused()
    ensures !IsFontAllowed(NewFontDefense(), "Another Unknown")
  {
    RefusedByShape("Another Unknown");
  }

  lemma QuotedUnknownDropped()
    ensures !KeepsEntry(NewFontDefense(), "'Unknown Font'")
  {
    assert "'Unknown Font'" == ['\''] + "Unknown Font" + ['\''];
    StripQuotesQuoted("Unknown Font", '\'');
    UnknownFontRefused();
  }

  lemma QuotedAnotherUnknownDropped()
    ensures !KeepsEntry(NewFontDefense(), "'Another Unknown'")
  {
    assert "'Another Unknown'" == ['\''] + "Another Unknown" + ['\''];
    StripQuotesQuoted("Another Unknown", '\'');
    AnotherUnknownRefused();
  }

  lemma SecondExampleJoin()
    ensures Join(["'Unknown Font'", "'Another Unknown'"], ", ") == "'Unknown Font', 'Another Unknown'"
  {
  }

  lemma SecondExampleClean()
    ensures CleanEntry("'Unknown Font'") && CleanEntry("'Another Unknown'")
  {
  }

  /** The second sanitizing example: nothing is allowed, so the fallback is used. */
  lemma SanitizeFallbackExample()
    ensures SanitizeFontFamily(NewFontDefense(), "'Unknown Font', 'Another Unknown'") == FALLBACK_FAMILY
  {
    SecondExampleJoin();
    SecondExampleClean();
    QuotedUnknownDropped();
    QuotedAnotherUnknownDropped();
    SanitizeDropsBoth(NewFontDefense(), "'Unknown Font'", "'Another Unknown'");
  }
}

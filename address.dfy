/** The one-line store address "Street, PostalCode City, Country": the
    serialiser that builds it from the form's four fields and the parser
    that splits a stored address back into them. */
module Address {
  import opened Text
  import opened Seqs

  datatype Parts = Parts(street: string, city: string, postalCode: string, country: string)

  const NoParts := Parts("", "", "", "")

  /** The `filter(Boolean)` test on a string. */
  predicate Filled(s: string) {
    s != ""
  }

  // ---------------------------------------------------------------------------
  // buildAddress

  lemma FilterTwo(a: string, b: string)
    ensures Filter([a, b], Filled) == (if a != "" then [a] else []) + (if b != "" then [b] else [])
  {
    assert [a, b][1..] == [b] && [b][1..] == [];
  }

  lemma FilterThree(a: string, b: string, c: string)
    requires a != "" && b != "" && c != ""
    ensures Filter([a, b, c], Filled) == [a, b, c]
  {
    assert [a, b, c][1..] == [b, c];
    FilterTwo(b, c);
  }

  /** The middle part: postal code and city, whichever are non-empty, joined
      by a space and trimmed. */
  function MiddleOf(postalCode: string, city: string): string {
    Trim(Join(Filter([postalCode, city], Filled), " "))
  }

  /** buildAddress: the trimmed street, middle and country, empty ones
      dropped, joined by ", ". */
  function BuildAddress(street: string, city: string, postalCode: string, country: string): (r: string)
    ensures r == "" <==> Trim(street) == "" && MiddleOf(postalCode, city) == "" && Trim(country) == ""
    ensures Trim(street) != "" ==> StartsWith(r, Trim(street))
  {
    var parts := [Trim(street), MiddleOf(postalCode, city), Trim(country)];
    assert parts[1..] == [MiddleOf(postalCode, city), Trim(country)];
    FilterTwo(MiddleOf(postalCode, city), Trim(country));
    var kept := Filter(parts, Filled);
    assert kept == [] || kept[0] != "";
    JoinStart(kept, ", ");
    Join(kept, ", ")
  }

  /** A join of strings starts with the first one. */
  lemma JoinStart(parts: seq<string>, sep: string)
    ensures parts != [] ==> StartsWith(Join(parts, sep), parts[0])
    ensures parts == [] ==> Join(parts, sep) == ""
  {
    if |parts| > 1 {
      assert (parts[0] + sep + Join(parts[1..], sep))[..|parts[0]|] == parts[0];
    }
  }

  /** buildAddress of four empty fields is the empty address. */
  lemma BuildEmpty()
    ensures BuildAddress("", "", "", "") == ""
  {
    FilterTwo("", "");
    assert Filter(["", "", ""], Filled) == [] by {
      assert ["", "", ""][1..] == ["", ""];
      FilterTwo("", "");
    }
  }

  /** Non-empty, comma-free and with no white space at either end. */
  predicate Clean(s: string) {
    s != "" && ',' !in s && !IsSpace(s[0]) && !IsSpace(s[|s| - 1])
  }

  /** A postal code the parser recognises: a digit first and no white space. */
  predicate PostalLike(p: string) {
    p != "" && IsDigit(p[0]) && ',' !in p && forall i :: 0 <= i < |p| ==> !IsSpace(p[i])
  }

  /** A city the parser can give back: comma-free, single-spaced words. */
  predicate CityLike(c: string) {
    SingleSpaced(c) && ',' !in c
  }

  lemma SingleSpacedEnds(c: string)
    requires SingleSpaced(c)
    ensures !IsSpace(c[|c| - 1])
  {
  }

  /** With three non-empty parts the address is "street, middle, country". */
  lemma BuildThree(s: string, c: string, p: string, co: string)
    requires Clean(s) && Clean(co) && MiddleOf(p, c) != ""
    ensures BuildAddress(s, c, p, co) == s + ", " + MiddleOf(p, c) + ", " + co
  {
    var m := MiddleOf(p, c);
    TrimNoop(s);
    TrimNoop(co);
    FilterThree(s, m, co);
    JoinCons(s, [m, co], ", ");
    JoinCons(m, [co], ", ");
    assert [s] + [m, co] == [s, m, co] && [m] + [co] == [m, co];
  }

  /** The middle of a postal code and a city is "postalCode city". */
  lemma MiddleBoth(p: string, c: string)
    requires PostalLike(p) && CityLike(c)
    ensures MiddleOf(p, c) == p + " " + c
  {
    SingleSpacedEnds(c);
    FilterTwo(p, c);
    JoinCons(p, [c], " ");
    assert [p] + [c] == [p, c];
    TrimNoop(p + " " + c);
  }

  lemma MiddleOne(p: string, c: string)
    requires (PostalLike(p) && c == "") || (p == "" && CityLike(c))
    ensures MiddleOf(p, c) == p + c
  {
    if c == "" {
      MiddleAlone(p, "");
      assert p + c == p;
    } else {
      SingleSpacedEnds(c);
      MiddleAlone("", c);
      assert p + c == c;
    }
  }

  /** One non-empty word on its own is the whole middle. */
  lemma MiddleAlone(p: string, c: string)
    requires (p == "") != (c == "")
    requires var w := p + c; !IsSpace(w[0]) && !IsSpace(w[|w| - 1])
    ensures MiddleOf(p, c) == p + c
  {
    var w := p + c;
    FilterTwo(p, c);
    if p == "" {
      assert w == c && Filter([p, c], Filled) == [] + [c];
    } else {
      assert w == p && Filter([p, c], Filled) == [p] + [];
    }
    assert Join([w], " ") == w;
    TrimNoop(w);
  }

  // ---------------------------------------------------------------------------
  // parseAddress

  /** The comma-separated segments, trimmed, empty ones dropped. */
  function Segments(address: string): seq<string> {
    Filter(Map(SplitOn(address, ','), Trim), Filled)
  }

  /** Every segment is non-empty and comma-free. */
  lemma SegmentsClean(address: string)
    ensures forall i :: 0 <= i < |Segments(address)| ==> Segments(address)[i] != "" && ',' !in Segments(address)[i]
  {
    var pieces := SplitOn(address, ',');
    SplitOnPieces(address, ',');
    var trimmed := Map(pieces, Trim);
    var segs := Filter(trimmed, Filled);
    forall i | 0 <= i < |segs| ensures segs[i] != "" && ',' !in segs[i] {
      FilterMembership(trimmed, Filled, segs[i]);
      var j :| 0 <= j < |trimmed| && trimmed[j] == segs[i];
      MapAt(pieces, Trim, j);
      TrimKeeps(pieces[j], ',');
    }
  }

  predicate StartsWithDigit(s: string) {
    s != "" && IsDigit(s[0])
  }

  /** The middle's postal code and city as parseAddress reads them: the
      first token is the postal code when it starts with a digit; the city
      is every token after the first, or the whole middle when it has one
      token. */
  function SplitMiddle(middle: string): (string, string) {
    var tokens := SplitWs(middle);
    var postalCode := if StartsWithDigit(tokens[0]) then tokens[0] else "";
    (postalCode, if |tokens| > 1 then Join(tokens[1..], " ") else middle)
  }

  /** The middle read as the format describes it: the tokens after a postal
      code are the city, and with no postal code the whole middle is. */
  function SplitMiddleFixed(middle: string): (string, string) {
    var tokens := SplitWs(middle);
    if StartsWithDigit(tokens[0]) then (tokens[0], Join(tokens[1..], " ")) else ("", middle)
  }

  /** What the parser can give as a postal code: nothing, or a token that
      starts with a digit. */
  predicate PostalToken(p: string) {
    p == "" || (IsDigit(p[0]) && forall i :: 0 <= i < |p| ==> !IsSpace(p[i]))
  }

  /** Both middle rules take the postal code from the first token, and only
      when it starts with a digit. */
  lemma MiddlePostalTokens()
    ensures forall m :: PostalToken(SplitMiddle(m).0) && PostalToken(SplitMiddleFixed(m).0)
  {
    forall m ensures PostalToken(SplitMiddle(m).0) && PostalToken(SplitMiddleFixed(m).0) {
      assert SplitWs(m)[0] == Word(m);
    }
  }

  /** parseAddress, with the rule that splits the middle as a parameter. */
  function ParseWith(address: string, splitMiddle: string -> (string, string)): (r: Parts)
    ensures Trim(address) == "" ==> r == NoParts
    ensures ',' !in r.street && ',' !in r.country
    ensures (forall m :: PostalToken(splitMiddle(m).0)) ==> PostalToken(r.postalCode)
  {
    if Trim(address) == "" then NoParts
    else
      var segs := Segments(address);
      SegmentsClean(address);
      if |segs| >= 3 then
        var middle := splitMiddle(Join(segs[1..|segs| - 1], ", "));
        Parts(segs[0], middle.1, middle.0, segs[|segs| - 1])
      else if |segs| == 2 then Parts(segs[0], segs[1], "", "")
      else if |segs| == 1 then Parts(segs[0], "", "", "")
      else NoParts
  }

  /** parseAddress as written. */
  function ParseAddress(address: string): (r: Parts)
    ensures IsBlank(address) ==> r == NoParts
    ensures ',' !in r.street && ',' !in r.country
    ensures PostalToken(r.postalCode)
  {
    TrimEmptyIffBlank(address);
    MiddlePostalTokens();
    ParseWith(address, SplitMiddle)
  }

  /** parseAddress with the city rule corrected. */
  function ParseAddressFixed(address: string): (r: Parts)
    ensures IsBlank(address) ==> r == NoParts
    ensures ',' !in r.street && ',' !in r.country
    ensures PostalToken(r.postalCode)
  {
    TrimEmptyIffBlank(address);
    MiddlePostalTokens();
    ParseWith(address, SplitMiddleFixed)
  }

  lemma SplitNoComma(t: string)
    requires ',' !in t
    ensures SplitOn(t, ',') == [t]
  {
  }

  lemma SplitTwo(a: string, b: string)
    requires ',' !in a && ',' !in b
    ensures SplitOn(a + [','] + b, ',') == [a, b]
  {
    SplitOnFirst(a, b, ',');
    SplitNoComma(b);
    assert [a] + [b] == [a, b];
  }

  lemma SplitThreeRaw(s: string, mid: string, tail: string)
    requires ',' !in s && ',' !in mid && ',' !in tail
    ensures SplitOn(s + [','] + (mid + [','] + tail), ',') == [s, mid, tail]
  {
    SplitOnFirst(s, mid + [','] + tail, ',');
    SplitTwo(mid, tail);
    assert [s] + [mid, tail] == [s, mid, tail];
  }

  lemma ThreeShape(s: string, m: string, co: string)
    ensures s + ", " + m + ", " + co == s + [','] + ((" " + m) + [','] + (" " + co))
  {
  }

  /** "s, m, co" splits at its two commas. */
  lemma SplitThree(s: string, m: string, co: string)
    requires ',' !in s && ',' !in m && ',' !in co
    ensures SplitOn(s + ", " + m + ", " + co, ',') == [s, " " + m, " " + co]
  {
    assert ',' !in " " + m && ',' !in " " + co;
    ThreeShape(s, m, co);
    SplitThreeRaw(s, " " + m, " " + co);
  }

  lemma SegmentsThreeRaw(pieces: seq<string>, s: string, m: string, co: string)
    requires Clean(s) && Clean(m) && Clean(co)
    requires |pieces| == 3 && pieces[0] == s && pieces[1] == " " + m && pieces[2] == " " + co
    ensures var segs := Filter(Map(pieces, Trim), Filled);
      |segs| == 3 && segs[0] == s && segs[1] == m && segs[2] == co
  {
    var trimmed := Map(pieces, Trim);
    MapAt(pieces, Trim, 0);
    MapAt(pieces, Trim, 1);
    MapAt(pieces, Trim, 2);
    TrimNoop(s);
    TrimLeadingSpace(m);
    TrimLeadingSpace(co);
    assert forall i :: 0 <= i < |trimmed| ==> Filled(trimmed[i]) by {
      forall i | 0 <= i < |trimmed| ensures Filled(trimmed[i]) {
        assert i == 0 || i == 1 || i == 2;
      }
    }
    FilterKeepsEverything(trimmed, Filled);
  }

  /** "s, m, co" has the three segments s, m and co. */
  lemma SegmentsThree(s: string, m: string, co: string)
    requires Clean(s) && Clean(m) && Clean(co)
    ensures var segs := Segments(s + ", " + m + ", " + co);
      |segs| == 3 && segs[0] == s && segs[1] == m && segs[2] == co
  {
    SplitThree(s, m, co);
    SegmentsThreeRaw(SplitOn(s + ", " + m + ", " + co, ','), s, m, co);
  }

  /** An address of three clean segments parses to its first and last
      segment around whatever the middle rule makes of the middle one. */
  lemma {:induction false} ParseThree(s: string, m: string, co: string, splitMiddle: string -> (string, string))
    requires Clean(s) && Clean(m) && Clean(co)
    ensures var r := ParseWith(s + ", " + m + ", " + co, splitMiddle);
      r == Parts(s, splitMiddle(m).1, splitMiddle(m).0, co)
  {
    var address := s + ", " + m + ", " + co;
    SegmentsThree(s, m, co);
    var segs := Segments(address);
    assert Trim(address) != "" by {
      TrimEmptyIffBlank(address);
      assert !IsSpace(address[0]);
    }
    MiddleSlice(segs);
    assert Join([m], ", ") == m;
    ParseWithSegments(address, splitMiddle);
  }

  lemma MiddleSlice<T>(xs: seq<T>)
    requires |xs| == 3
    ensures xs[1..|xs| - 1] == [xs[1]]
  {
  }

  /** parseAddress on an address with three segments or more. */
  lemma ParseWithSegments(address: string, splitMiddle: string -> (string, string))
    requires Trim(address) != "" && |Segments(address)| >= 3
    ensures var segs := Segments(address);
      ParseWith(address, splitMiddle)
      == Parts(segs[0], splitMiddle(Join(segs[1..|segs| - 1], ", ")).1,
               splitMiddle(Join(segs[1..|segs| - 1], ", ")).0, segs[|segs| - 1])
  {
  }

  /** A word without white space, a space, and a text starting with a
      non-space character split into that word and the text's words. */
  lemma SplitWordRest(p: string, c: string)
    requires p != "" && forall i :: 0 <= i < |p| ==> !IsSpace(p[i])
    requires c != "" && !IsSpace(c[0])
    ensures SplitWs(p + " " + c) == [p] + SplitWs(c)
  {
    var m := p + " " + c;
    WordOf(p, " " + c);
    assert m == p + (" " + c);
    assert m[|p|..] == " " + c;
    assert TrimStart(" " + c) == c by {
      assert (" " + c)[1..] == c;
    }
  }

  /** Both middle rules read "postalCode city" as that postal code and city. */
  lemma MiddlePostalCity(p: string, c: string)
    requires PostalLike(p) && CityLike(c)
    ensures SplitMiddle(p + " " + c) == (p, c)
    ensures SplitMiddleFixed(p + " " + c) == (p, c)
  {
    SplitWordRest(p, c);
    var tokens := SplitWs(p + " " + c);
    assert tokens[0] == p && tokens[1..] == SplitWs(c);
    JoinSplitWs(c);
  }

  /** Round trip: a full address with a postal code and a city parses back
      to the fields it was built from. */
  lemma {:induction false} RoundTrip(s: string, c: string, p: string, co: string)
    requires Clean(s) && Clean(co) && PostalLike(p) && CityLike(c)
    ensures ParseAddress(BuildAddress(s, c, p, co)) == Parts(s, c, p, co)
    ensures ParseAddressFixed(BuildAddress(s, c, p, co)) == Parts(s, c, p, co)
  {
    MiddleBoth(p, c);
    SingleSpacedEnds(c);
    var m := p + " " + c;
    assert Clean(m);
    BuildThree(s, c, p, co);
    ParseThree(s, m, co, SplitMiddle);
    ParseThree(s, m, co, SplitMiddleFixed);
    MiddlePostalCity(p, c);
  }

  /** Round trip of the corrected parser: it also gives back an address
      with a postal code but no city, and one with a city not starting with
      a digit but no postal code. */
  lemma {:induction false} RoundTripFixed(s: string, c: string, p: string, co: string)
    requires Clean(s) && Clean(co)
    requires (PostalLike(p) && (c == "" || CityLike(c))) || (p == "" && CityLike(c) && !IsDigit(c[0]))
    ensures ParseAddressFixed(BuildAddress(s, c, p, co)) == Parts(s, c, p, co)
  {
    if p != "" && c != "" {
      RoundTrip(s, c, p, co);
    } else {
      MiddleOne(p, c);
      var m := p + c;
      BuildThree(s, c, p, co);
      if c == "" {
        assert m == p;
        ParseThree(s, m, co, SplitMiddleFixed);
        SplitOneWord(p);
      } else {
        assert m == c;
        SingleSpacedEnds(c);
        ParseThree(s, m, co, SplitMiddleFixed);
        assert Word(c) != "" && Word(c)[0] == c[0];
      }
    }
  }

  /** A text without white space is one token. */
  lemma SplitOneWord(p: string)
    requires forall i :: 0 <= i < |p| ==> !IsSpace(p[i])
    ensures SplitWs(p) == [p]
  {
    WordOf(p, "");
    assert p + "" == p;
  }

  /** A space-free word in front of a city, one space apart, is again a city. */
  lemma CityPrefixWord(w: string, rest: string)
    requires CityLike(rest)
    requires w != "" && ',' !in w && forall i :: 0 <= i < |w| ==> !IsSpace(w[i])
    ensures CityLike(w + " " + rest)
  {
    var c := w + " " + rest;
    forall i | 0 <= i < |c| && IsSpace(c[i]) ensures c[i] == ' ' && i + 1 < |c| && !IsSpace(c[i + 1]) {
      if i > |w| {
        assert c[i] == rest[i - |w| - 1];
        assert i + 1 < |c| ==> c[i + 1] == rest[i - |w|];
      }
    }
  }

  /** The middle rule as written reads a word not starting with a digit,
      followed by a city, as no postal code and only that city. */
  lemma MiddleWordCity(w: string, rest: string)
    requires CityLike(rest)
    requires w != "" && !IsDigit(w[0]) && forall i :: 0 <= i < |w| ==> !IsSpace(w[i])
    ensures SplitMiddle(w + " " + rest) == ("", rest)
  {
    SplitWordRest(w, rest);
    var tokens := SplitWs(w + " " + rest);
    assert tokens[0] == w && tokens[1..] == SplitWs(rest);
    JoinSplitWs(rest);
  }

  /** With no postal code, the parser as written drops the city's first
      word (RoundTripFixed shows the corrected one keeps the whole city). */
  lemma {:induction false} CityLosesFirstWord(s: string, w: string, rest: string, co: string)
    requires Clean(s) && Clean(co) && CityLike(rest)
    requires w != "" && !IsDigit(w[0]) && ',' !in w && forall i :: 0 <= i < |w| ==> !IsSpace(w[i])
    ensures CityLike(w + " " + rest)
    ensures ParseAddress(BuildAddress(s, w + " " + rest, "", co)) == Parts(s, rest, "", co)
  {
    var c := w + " " + rest;
    CityPrefixWord(w, rest);
    SingleSpacedEnds(c);
    MiddleOne("", c);
    assert "" + c == c;
    BuildThree(s, c, "", co);
    ParseThree(s, c, co, SplitMiddle);
    MiddleWordCity(w, rest);
  }

  /** "New York" is the word "New" in front of the city "York". */
  lemma NewYorkWords()
    ensures "New" + " " + "York" == "New York"
    ensures CityLike("York")
    ensures Clean("Main St") && Clean("USA")
  {
  }

  /** The street "Main St", the city "New York" and the country "USA", with
      no postal code: the parser as written reads the city back as "York". */
  lemma {:induction false} NewYork()
    ensures ParseAddress(BuildAddress("Main St", "New York", "", "USA")) == Parts("Main St", "York", "", "USA")
    ensures ParseAddressFixed(BuildAddress("Main St", "New York", "", "USA")) == Parts("Main St", "New York", "", "USA")
  {
    NewYorkWords();
    CityLosesFirstWord("Main St", "New", "York", "USA");
    RoundTripFixed("Main St", "New York", "", "USA");
  }

  /** With a postal code and no city, the parser as written repeats the
      postal code as the city, while the corrected one leaves the city empty. */
  lemma {:induction false} CityRepeatsPostalCode(s: string, p: string, co: string)
    requires Clean(s) && Clean(co) && PostalLike(p)
    ensures ParseAddress(BuildAddress(s, "", p, co)) == Parts(s, p, p, co)
    ensures ParseAddressFixed(BuildAddress(s, "", p, co)) == Parts(s, "", p, co)
  {
    MiddleOne(p, "");
    assert p + "" == p;
    BuildThree(s, "", p, co);
    ParseThree(s, p, co, SplitMiddle);
    ParseThree(s, p, co, SplitMiddleFixed);
    SplitOneWord(p);
  }

  /** The street "Main St", the postal code "1000" and the country "USA",
      with no city: the parser as written reads "1000" back as the city. */
  lemma {:induction false} PostalOnly()
    ensures ParseAddress(BuildAddress("Main St", "", "1000", "USA")) == Parts("Main St", "1000", "1000", "USA")
    ensures ParseAddressFixed(BuildAddress("Main St", "", "1000", "USA")) == Parts("Main St", "", "1000", "USA")
  {
    PostalWords();
    CityRepeatsPostalCode("Main St", "1000", "USA");
  }

  lemma PostalWords()
    ensures Clean("Main St") && Clean("USA") && PostalLike("1000")
  {
  }

  /** Two segments are street and city. */
  lemma {:induction false} ParseTwo(s: string, c: string)
    requires Clean(s) && Clean(c)
    ensures ParseAddress(s + ", " + c) == Parts(s, c, "", "")
  {
    var address := s + ", " + c;
    SegmentsTwo(s, c);
    assert Trim(address) != "" by {
      TrimEmptyIffBlank(address);
      assert !IsSpace(address[0]);
    }
  }

  /** "s, c" has the two segments s and c. */
  lemma SegmentsTwo(s: string, c: string)
    requires Clean(s) && Clean(c)
    ensures var segs := Segments(s + ", " + c);
      |segs| == 2 && segs[0] == s && segs[1] == c
  {
    var address := s + ", " + c;
    assert ',' !in " " + c;
    assert address == s + [','] + (" " + c);
    SplitTwo(s, " " + c);
    SegmentsTwoRaw(SplitOn(address, ','), s, c);
  }

  lemma SegmentsTwoRaw(pieces: seq<string>, s: string, c: string)
    requires Clean(s) && Clean(c)
    requires |pieces| == 2 && pieces[0] == s && pieces[1] == " " + c
    ensures var segs := Filter(Map(pieces, Trim), Filled);
      |segs| == 2 && segs[0] == s && segs[1] == c
  {
    var trimmed := Map(pieces, Trim);
    MapAt(pieces, Trim, 0);
    MapAt(pieces, Trim, 1);
    TrimNoop(s);
    TrimLeadingSpace(c);
    assert forall i :: 0 <= i < |trimmed| ==> Filled(trimmed[i]) by {
      forall i | 0 <= i < |trimmed| ensures Filled(trimmed[i]) {
        assert i == 0 || i == 1;
      }
    }
    FilterKeepsEverything(trimmed, Filled);
  }

  /** One segment is the street. */
  lemma {:induction false} ParseOne(s: string)
    requires Clean(s)
    ensures ParseAddress(s) == Parts(s, "", "", "")
  {
    SplitNoComma(s);
    MapAt([s], Trim, 0);
    TrimNoop(s);
    FilterKeepsEverything(Map([s], Trim), Filled);
    assert Trim(s) != "";
  }
}

/**
 * Header-name normalisation used by the trailer-header allow-list:
 * Java's String.trim, String.toLowerCase(Locale.ENGLISH) restricted to ASCII,
 * and String.split(",") with its rule that trailing empty strings are dropped.
 */
module HeaderNames {

  // ---------------------------------------------------------------- trim

  /** String.trim treats every char whose code is at most U+0020 as removable. */
  predicate IsTrimmable(c: char) {
    c <= ' '
  }

  predicate IsTrimmed(s: string) {
    s == [] || (!IsTrimmable(s[0]) && !IsTrimmable(s[|s| - 1]))
  }

  /** The first index from i on whose char is not trimmable, or |s| when there is none. */
  function LeadingEnd(s: string, i: nat): (a: nat)
    requires i <= |s|
    ensures i <= a <= |s|
    ensures a < |s| ==> !IsTrimmable(s[a])
    ensures forall j :: i <= j < a ==> IsTrimmable(s[j])
    decreases |s| - i
  {
    if i < |s| && IsTrimmable(s[i]) then LeadingEnd(s, i + 1) else i
  }

  /** The end of s[a..b] once its trailing trimmable chars are dropped. */
  function TrailingStart(s: string, a: nat, b: nat): (e: nat)
    requires a <= b <= |s|
    ensures a <= e <= b
    ensures a < e ==> !IsTrimmable(s[e - 1])
    ensures forall j :: e <= j < b ==> IsTrimmable(s[j])
  {
    if a < b && IsTrimmable(s[b - 1]) then TrailingStart(s, a, b - 1) else b
  }

  /** r is the slice of s starting at a, and every char of s outside it is trimmable. */
  ghost predicate IsSliceWithin(r: string, s: string, a: int) {
    && 0 <= a <= |s| - |r|
    && r == s[a..a + |r|]
    && (forall i :: 0 <= i < a ==> IsTrimmable(s[i]))
    && (forall i :: a + |r| <= i < |s| ==> IsTrimmable(s[i]))
  }

  /**
   * String.trim: a slice of s that neither starts nor ends with a trimmable
   * char, everything outside it being trimmable.
   */
  function Trim(s: string): (r: string)
    ensures IsTrimmed(r)
    ensures exists a :: IsSliceWithin(r, s, a)
  {
    var a := LeadingEnd(s, 0);
    var e := TrailingStart(s, a, |s|);
    assert IsSliceWithin(s[a..e], s, a);
    s[a..e]
  }

  lemma TrimOfTrimmed(s: string)
    requires IsTrimmed(s)
    ensures Trim(s) == s
  {
  }

  // ---------------------------------------------------------- lower case

  predicate IsUpper(c: char) {
    'A' <= c <= 'Z'
  }

  /** Character.toLowerCase on the ASCII range: A-Z become a-z, everything else stays. */
  function LowerChar(c: char): (d: char)
    ensures !IsUpper(d)
    ensures IsUpper(c) ==> d as int == c as int + ('a' as int - 'A' as int)
    ensures IsTrimmable(d) <==> IsTrimmable(c)
    ensures !IsUpper(c) ==> d == c
  {
    if IsUpper(c) then (c as int + ('a' as int - 'A' as int)) as char else c
  }

  /** String.toLowerCase(Locale.ENGLISH), restricted to ASCII letters. */
  function ToLower(s: string): (r: string)
    ensures |r| == |s|
    ensures forall i :: 0 <= i < |s| ==> r[i] == LowerChar(s[i])
    ensures forall i :: 0 <= i < |r| ==> !IsUpper(r[i])
  {
    seq(|s|, i requires 0 <= i < |s| => LowerChar(s[i]))
  }

  // ------------------------------------------------------- normalisation

  /** The form in which the allow-list stores a header name. */
  predicate IsNormalized(s: string) {
    IsTrimmed(s) && forall i :: 0 <= i < |s| ==> !IsUpper(s[i])
  }

  /** header.trim().toLowerCase(Locale.ENGLISH) */
  function Normalize(h: string): (r: string)
    ensures IsNormalized(r)
    ensures |r| <= |h|
  {
    ToLower(Trim(h))
  }

  /** A name is stored unchanged exactly when it is already normalised. */
  lemma NormalizeFixedPoint(s: string)
    ensures Normalize(s) == s <==> IsNormalized(s)
  {
    if IsNormalized(s) {
      TrimOfTrimmed(s);
      assert ToLower(s) == s;
    }
  }

  lemma NormalizeIdempotent(h: string)
    ensures Normalize(Normalize(h)) == Normalize(h)
  {
    NormalizeFixedPoint(Normalize(h));
  }

  // --------------------------------------------------------------- split

  /** Index of the first comma of s, or |s| when there is none. */
  function CommaIndex(s: string): (i: nat)
    ensures i <= |s|
    ensures i < |s| ==> s[i] == ','
    ensures forall j :: 0 <= j < i ==> s[j] != ','
  {
    if s == [] || s[0] == ',' then 0 else 1 + CommaIndex(s[1..])
  }

  /** Every piece between commas, empty ones included: n commas give n + 1 pieces. */
  function Pieces(s: string): (r: seq<string>)
    ensures |r| >= 1
    decreases |s|
  {
    var i := CommaIndex(s);
    if i == |s| then [s] else [s[..i]] + Pieces(s[i + 1..])
  }

  function JoinWithCommas(ps: seq<string>): string
    requires |ps| >= 1
  {
    if |ps| == 1 then ps[0] else ps[0] + "," + JoinWithCommas(ps[1..])
  }

  lemma JoinCons(p: string, ps: seq<string>)
    requires |ps| >= 1
    ensures JoinWithCommas([p] + ps) == p + "," + JoinWithCommas(ps)
  {
    assert ([p] + ps)[1..] == ps;
  }

  lemma CutAtComma(s: string, i: nat)
    requires i < |s| && s[i] == ','
    ensures s == s[..i] + "," + s[i + 1..]
  {
  }

  /** Pieces of a string that has a comma: the part before the first comma, then the pieces after it. */
  lemma PiecesAtFirstComma(s: string, i: nat)
    requires i == CommaIndex(s) && i < |s|
    ensures Pieces(s) == [s[..i]] + Pieces(s[i + 1..])
  {
  }

  /** The cut is at every comma: no piece holds one. */
  lemma {:induction false} PiecesCommaFree(s: string)
    ensures forall k :: 0 <= k < |Pieces(s)| ==> ',' !in Pieces(s)[k]
    decreases |s|
  {
    var i := CommaIndex(s);
    if i < |s| {
      var rest := s[i + 1..];
      PiecesCommaFree(rest);
      PiecesAtFirstComma(s, i);
      forall k | 0 <= k < |Pieces(s)|
        ensures ',' !in Pieces(s)[k]
      {
        if k == 0 {
          assert forall j :: 0 <= j < |s[..i]| ==> s[..i][j] == s[j];
        } else {
          assert Pieces(s)[k] == Pieces(rest)[k - 1];
        }
      }
    } else {
      assert Pieces(s) == [s];
    }
  }

  /** Pieces loses nothing: joining them back with commas gives the input. */
  lemma {:induction false} JoinPieces(s: string)
    ensures JoinWithCommas(Pieces(s)) == s
    decreases |s|
  {
    var i := CommaIndex(s);
    if i < |s| {
      var rest := s[i + 1..];
      JoinPieces(rest);
      PiecesAtFirstComma(s, i);
      JoinCons(s[..i], Pieces(rest));
      CutAtComma(s, i);
    }
  }

  lemma CommaIndexAfter(p: string, rest: string)
    requires ',' !in p
    ensures CommaIndex(p + "," + rest) == |p|
  {
    var s := p + "," + rest;
    assert s[|p|] == ',';
  }

  /** A comma-free p, a comma, then rest: p is the first piece and the pieces of rest follow. */
  lemma PiecesOfCons(p: string, rest: string)
    requires ',' !in p
    ensures Pieces(p + "," + rest) == [p] + Pieces(rest)
  {
    var s := p + "," + rest;
    CommaIndexAfter(p, rest);
    PiecesAtFirstComma(s, |p|);
    assert s[..|p|] == p;
    assert s[|p| + 1..] == rest;
  }

  /** And the other direction: comma-free pieces joined with commas split back into themselves. */
  lemma {:induction false} PiecesJoin(ps: seq<string>)
    requires |ps| >= 1
    requires forall k :: 0 <= k < |ps| ==> ',' !in ps[k]
    ensures Pieces(JoinWithCommas(ps)) == ps
  {
    if |ps| > 1 {
      var tail := ps[1..];
      JoinCons(ps[0], tail);
      assert ps == [ps[0]] + tail;
      PiecesOfCons(ps[0], JoinWithCommas(tail));
      PiecesJoin(tail);
    }
  }

  /** Drops the empty strings at the end of ps. */
  function DropTrailingEmpty(ps: seq<string>): (r: seq<string>)
    ensures |r| <= |ps| && r == ps[..|r|]
    ensures forall j :: |r| <= j < |ps| ==> ps[j] == ""
    ensures r == [] || r[|r| - 1] != ""
  {
    if ps != [] && ps[|ps| - 1] == "" then DropTrailingEmpty(ps[..|ps| - 1]) else ps
  }

  /**
   * String.split(","): a string without a comma is returned whole (even the
   * empty string); otherwise the pieces between commas, with the trailing
   * empty ones dropped (so "," splits into no token at all).
   */
  function Split(s: string): (r: seq<string>)
    ensures forall k :: 0 <= k < |r| ==> ',' !in r[k]
    ensures ',' !in s ==> r == [s]
    ensures ',' in s ==> |r| <= |Pieces(s)| && r == Pieces(s)[..|r|]
                         && (forall j :: |r| <= j < |Pieces(s)| ==> Pieces(s)[j] == "")
                         && (r == [] || r[|r| - 1] != "")
  {
    if ',' !in s then [s] else PiecesCommaFree(s); DropTrailingEmpty(Pieces(s))
  }

  // --------------------------------------------------- sets of names

  /** The set of normalised forms of the tokens ts. */
  function TokenSet(ts: seq<string>): (r: set<string>)
    ensures forall h :: h in r ==> IsNormalized(h)
  {
    if ts == [] then {} else TokenSet(ts[..|ts| - 1]) + {Normalize(ts[|ts| - 1])}
  }

  /** The set of images under f of the strings of ts; TokenSet is its instance for Normalize. */
  function ImageSet(f: string -> string, ts: seq<string>): set<string> {
    if ts == [] then {} else ImageSet(f, ts[..|ts| - 1]) + {f(ts[|ts| - 1])}
  }

  lemma {:induction false} ImageSetMembers(f: string -> string, ts: seq<string>, x: string)
    ensures x in ImageSet(f, ts) <==> exists k :: 0 <= k < |ts| && f(ts[k]) == x
  {
    if ts != [] {
      var init := ts[..|ts| - 1];
      ImageSetMembers(f, init, x);
      if x in ImageSet(f, init) {
        var k :| 0 <= k < |init| && f(init[k]) == x;
        assert ts[k] == init[k];
      }
      if k :| 0 <= k < |ts| - 1 && f(ts[k]) == x {
        assert init[k] == ts[k];
      }
    }
  }

  lemma {:induction false} TokenSetIsImage(ts: seq<string>)
    ensures TokenSet(ts) == ImageSet(Normalize, ts)
  {
    if ts != [] {
      TokenSetIsImage(ts[..|ts| - 1]);
    }
  }

  lemma TokenSetMembers(ts: seq<string>, x: string)
    ensures x in TokenSet(ts) <==> exists k :: 0 <= k < |ts| && Normalize(ts[k]) == x
  {
    TokenSetIsImage(ts);
    ImageSetMembers(Normalize, ts, x);
  }

  lemma TokenSetStep(ts: seq<string>, i: nat)
    requires i < |ts|
    ensures TokenSet(ts[..i + 1]) == TokenSet(ts[..i]) + {Normalize(ts[i])}
  {
    assert ts[..i + 1][..i] == ts[..i];
  }

  /** The allow-list a comma-separated configuration value denotes. */
  function TrailerNames(commaSeparated: string): (r: set<string>)
    ensures forall h :: h in r ==> IsNormalized(h)
  {
    TokenSet(Split(commaSeparated))
  }

  /** x is allowed exactly when some token of the split value normalises to it. */
  lemma TrailerNamesMembers(commaSeparated: string, x: string)
    ensures x in TrailerNames(commaSeparated)
            <==> exists t :: t in Split(commaSeparated) && Normalize(t) == x
  {
    var ts := Split(commaSeparated);
    TokenSetMembers(ts, x);
    if t :| t in ts && Normalize(t) == x {
      var k :| 0 <= k < |ts| && ts[k] == t;
    }
  }

  /** Comma-free tokens, the last one non-empty, joined with commas split back into themselves. */
  lemma SplitJoin(ts: seq<string>)
    requires |ts| >= 1 && ts[|ts| - 1] != ""
    requires forall k :: 0 <= k < |ts| ==> ',' !in ts[k]
    ensures Split(JoinWithCommas(ts)) == ts
  {
    var s := JoinWithCommas(ts);
    PiecesJoin(ts);
    if ',' !in s {
      assert CommaIndex(s) == |s|;
    } else {
      assert DropTrailingEmpty(ts) == ts;
    }
  }

  /**
   * A list of normalised names written with commas between them is read
   * back as exactly those names.
   */
  lemma JoinedNamesReadBack(names: seq<string>)
    requires |names| >= 1 && names[|names| - 1] != ""
    requires forall k :: 0 <= k < |names| ==> ',' !in names[k] && IsNormalized(names[k])
    ensures forall x :: x in TrailerNames(JoinWithCommas(names)) <==> x in names
  {
    SplitJoin(names);
    forall x
      ensures x in TrailerNames(JoinWithCommas(names)) <==> x in names
    {
      TokenSetMembers(names, x);
      if x in names {
        var k :| 0 <= k < |names| && names[k] == x;
        NormalizeFixedPoint(names[k]);
      }
      if k :| 0 <= k < |names| && Normalize(names[k]) == x {
        NormalizeFixedPoint(names[k]);
      }
    }
  }
}

/**
 * The item-list parser shared by the `$add` and `$remove` commands:
 * the text after the bag name is split on commas, every piece is stripped
 * of surrounding whitespace, and the pieces that are left empty are dropped.
 */
module ItemText {

  /** The characters `str.strip()` removes, within the ASCII range. */
  predicate IsSpace(c: char) {
    (9 <= c as int <= 13) || (28 <= c as int <= 32)
  }

  predicate AllSpace(s: string) {
    forall i :: 0 <= i < |s| ==> IsSpace(s[i])
  }

  /** A string with no whitespace at either end (the empty string included). */
  predicate Stripped(t: string) {
    t == [] || (!IsSpace(t[0]) && !IsSpace(t[|t| - 1]))
  }

  /** What a bag can hold: a non-empty, stripped piece of text without a comma. */
  predicate IsItem(t: string) {
    t != [] && Stripped(t) && ',' !in t
  }

  predicate AllItems(items: seq<string>) {
    forall t :: t in items ==> IsItem(t)
  }

  /** Drops the leading whitespace. */
  function TrimStart(s: string): string
  {
    if s != [] && IsSpace(s[0]) then TrimStart(s[1..]) else s
  }

  /** Drops the trailing whitespace. */
  function TrimEnd(s: string): string
  {
    if s != [] && IsSpace(s[|s| - 1]) then TrimEnd(s[..|s| - 1]) else s
  }

  /** `str.strip()` with no argument. */
  function Strip(s: string): (r: string)
    ensures Stripped(r)
  {
    TrimStartSpec(s);
    TrimEndSpec(TrimStart(s));
    TrimEnd(TrimStart(s))
  }

  /**
   * `str.split(sep)`: the pieces between separators, in order; there is
   * always at least one piece, and an empty string gives one empty piece.
   */
  function Split(s: string, sep: char): (pieces: seq<string>)
    ensures |pieces| >= 1
    ensures forall k :: 0 <= k < |pieces| ==> sep !in pieces[k]
  {
    if s == [] then [[]]
    else
      var rest := Split(s[1..], sep);
      if s[0] == sep then [[]] + rest
      else [[s[0]] + rest[0]] + rest[1..]
  }

  /** `sep.join(pieces)` for a one-character separator. */
  function Join(pieces: seq<string>, sep: char): string
    requires |pieces| >= 1
  {
    if |pieces| == 1 then pieces[0]
    else pieces[0] + [sep] + Join(pieces[1..], sep)
  }

  /** Strips every piece and keeps those that are not empty, in order. */
  function Keep(pieces: seq<string>): (items: seq<string>)
    ensures |items| <= |pieces|
  {
    if pieces == [] then []
    else
      var t := Strip(pieces[0]);
      (if t == [] then [] else [t]) + Keep(pieces[1..])
  }

  /**
   * The list comprehension over `content.split(',')` in the add and remove
   * handlers; every item it yields is one a bag can hold.
   */
  function ParseItems(content: string): (items: seq<string>)
    ensures AllItems(items)
  {
    KeepNoComma(Split(content, ','));
    Keep(Split(content, ','))
  }

  // ---------------------------------------------------------------------
  // Strip

  /** What TrimStart leaves is the suffix of `s` after a run of whitespace, and starts with no whitespace. */
  lemma {:induction false} TrimStartSpec(s: string)
    ensures var r := TrimStart(s);
            && |r| <= |s| && r == s[|s| - |r|..]
            && AllSpace(s[..|s| - |r|])
            && (r == [] || !IsSpace(r[0]))
  {
    if s != [] && IsSpace(s[0]) {
      var r := TrimStart(s[1..]);
      TrimStartSpec(s[1..]);
      assert s[..|s| - |r|] == [s[0]] + s[1..][..|s[1..]| - |r|];
    } else {
      assert s[..0] == [];
    }
  }

  /** What TrimEnd leaves is the prefix of `s` before a run of whitespace, and ends with no whitespace. */
  lemma {:induction false} TrimEndSpec(s: string)
    ensures var r := TrimEnd(s);
            && |r| <= |s| && r == s[..|r|]
            && AllSpace(s[|r|..])
            && (r == [] || !IsSpace(r[|r| - 1]))
  {
    if s != [] && IsSpace(s[|s| - 1]) {
      var r := TrimEnd(s[..|s| - 1]);
      TrimEndSpec(s[..|s| - 1]);
      assert s[|r|..] == s[..|s| - 1][|r|..] + [s[|s| - 1]];
    } else {
      assert s[|s|..] == [];
    }
  }

  /** A string made only of whitespace strips to the empty string. */
  lemma StripAllSpace(s: string)
    requires AllSpace(s)
    ensures Strip(s) == []
  {
    TrimStartSpec(s);
    var r := TrimStart(s);
    if r != [] {
      assert false;
    }
  }

  /**
   * Strip is characterised by its result: for any padding made of whitespace
   * around a stripped text, stripping gives back exactly that text.
   */
  lemma StripPadded(a: string, t: string, b: string)
    requires AllSpace(a) && AllSpace(b) && Stripped(t)
    ensures Strip(a + t + b) == t
  {
    var s := a + t + b;
    if t == [] {
      assert s == a + b;
      assert AllSpace(s) by {
        forall i | 0 <= i < |s| ensures IsSpace(s[i]) {
          if i < |a| { assert s[i] == a[i]; } else { assert s[i] == b[i - |a|]; }
        }
      }
      StripAllSpace(s);
    } else {
      TrimStartSpec(s);
      var r := TrimStart(s);
      var cut := |s| - |r|;
      assert forall i :: 0 <= i < |a| ==> s[i] == a[i];
      assert s[|a|] == t[0];
      assert cut == |a|;
      assert r == t + b;
      TrimEndSpec(r);
      var q := TrimEnd(r);
      assert forall i :: 0 <= i < |b| ==> r[|t| + i] == b[i];
      assert r[|t| - 1] == t[|t| - 1];
      assert |q| == |t|;
      assert q == t;
    }
  }

  /** Strip removes nothing but whitespace: every character it keeps came from `s`. */
  lemma StripKeepsChars(s: string, c: char)
    requires c in Strip(s)
    ensures c in s
  {
    TrimStartSpec(s);
    var r := TrimStart(s);
    TrimEndSpec(r);
    var q := TrimEnd(r);
    var k :| 0 <= k < |q| && q[k] == c;
    assert r[k] == c;
    assert s[|s| - |r| + k] == c;
  }

  lemma StripEmptyIff(s: string)
    ensures Strip(s) == [] <==> AllSpace(s)
  {
    if AllSpace(s) {
      StripAllSpace(s);
    } else {
      TrimStartSpec(s);
      var r := TrimStart(s);
      if r == [] {
        assert false;
      }
      TrimEndSpec(r);
      assert TrimEnd(r) != [];
    }
  }

  // ---------------------------------------------------------------------
  // Split and Join

  /** Splitting at a separator the text contains splits its two sides separately. */
  lemma {:induction false} SplitConcat(a: string, sep: char, b: string)
    ensures Split(a + [sep] + b, sep) == Split(a, sep) + Split(b, sep)
  {
    var s := a + [sep] + b;
    if a == [] {
      assert s == [sep] + b;
      assert s[1..] == b;
    } else {
      assert s[1..] == a[1..] + [sep] + b;
      SplitConcat(a[1..], sep, b);
    }
  }

  /** Text without the separator is a single piece. */
  lemma {:induction false} SplitNoSep(a: string, sep: char)
    requires sep !in a
    ensures Split(a, sep) == [a]
  {
    if a != [] {
      SplitNoSep(a[1..], sep);
      assert [a[0]] + a[1..] == a;
    }
  }

  /** Joining the pieces of a split gives back the text. */
  lemma {:induction false} JoinSplit(s: string, sep: char)
    ensures Join(Split(s, sep), sep) == s
  {
    if s != [] {
      var rest := Split(s[1..], sep);
      JoinSplit(s[1..], sep);
      if s[0] == sep {
        assert Split(s, sep)[1..] == rest;
        assert [s[0]] + s[1..] == s;
      } else {
        var pieces := Split(s, sep);
        if |rest| == 1 {
          assert [s[0]] + s[1..] == s;
        } else {
          assert pieces[1..] == rest[1..];
          assert Join(rest, sep) == rest[0] + [sep] + Join(rest[1..], sep);
          assert [s[0]] + s[1..] == s;
        }
      }
    }
  }

  /** Splitting the join of separator-free pieces gives back the pieces. */
  lemma {:induction false} SplitJoin(pieces: seq<string>, sep: char)
    requires |pieces| >= 1
    requires forall k :: 0 <= k < |pieces| ==> sep !in pieces[k]
    ensures Split(Join(pieces, sep), sep) == pieces
  {
    SplitNoSep(pieces[0], sep);
    if |pieces| > 1 {
      SplitJoin(pieces[1..], sep);
      SplitConcat(pieces[0], sep, Join(pieces[1..], sep));
      assert [pieces[0]] + pieces[1..] == pieces;
    }
  }

  // ---------------------------------------------------------------------
  // ParseItems

  lemma {:induction false} KeepConcat(p: seq<string>, q: seq<string>)
    ensures Keep(p + q) == Keep(p) + Keep(q)
  {
    if p != [] {
      var t := Strip(p[0]);
      var head := if t == [] then [] else [t];
      assert (p + q)[0] == p[0] && (p + q)[1..] == p[1..] + q;
      KeepConcat(p[1..], q);
      assert Keep(p + q) == head + Keep(p[1..] + q);
      assert Keep(p) == head + Keep(p[1..]);
    } else {
      assert p + q == q;
    }
  }

  /** A piece that contains no comma strips to an item without a comma. */
  lemma KeepNoComma(pieces: seq<string>)
    requires forall k :: 0 <= k < |pieces| ==> ',' !in pieces[k]
    ensures AllItems(Keep(pieces))
  {
    if pieces != [] {
      KeepNoComma(pieces[1..]);
      if ',' in Strip(pieces[0]) {
        StripKeepsChars(pieces[0], ',');
      }
    }
  }

  /** Parsing `a,b` gives the items of `a` followed by those of `b`: two adds equal one. */
  lemma ParseConcat(a: string, b: string)
    ensures ParseItems(a + [','] + b) == ParseItems(a) + ParseItems(b)
  {
    SplitConcat(a, ',', b);
    KeepConcat(Split(a, ','), Split(b, ','));
  }

  /** A stored item parses back to itself. */
  lemma ParseItem(t: string)
    requires IsItem(t)
    ensures ParseItems(t) == [t]
  {
    SplitNoSep(t, ',');
    StripPadded([], t, []);
    assert [] + t + [] == t;
    assert Keep([t]) == [t] + Keep([]);
  }

  /** Whitespace around a single item is ignored. */
  lemma ParsePadded(a: string, t: string, b: string)
    requires AllSpace(a) && AllSpace(b) && IsItem(t)
    ensures ParseItems(a + t + b) == [t]
  {
    var s := a + t + b;
    assert ',' !in a && ',' !in b;
    SplitNoSep(s, ',');
    StripPadded(a, t, b);
    assert Keep([s]) == [t] + Keep([]);
  }

  /** Parsing is a left inverse of joining items with commas. */
  lemma {:induction false} ParseJoin(items: seq<string>)
    requires |items| >= 1 && AllItems(items)
    ensures ParseItems(Join(items, ',')) == items
  {
    ParseItem(items[0]);
    if |items| > 1 {
      var rest := Join(items[1..], ',');
      assert Join(items, ',') == items[0] + [','] + rest;
      ParseJoin(items[1..]);
      ParseConcat(items[0], rest);
      calc {
        ParseItems(Join(items, ','));
        ParseItems(items[0] + [','] + rest);
        ParseItems(items[0]) + ParseItems(rest);
        [items[0]] + items[1..];
        items;
      }
    }
  }

  /** Text made only of commas and whitespace. */
  predicate Blank(s: string) {
    forall i :: 0 <= i < |s| ==> s[i] == ',' || IsSpace(s[i])
  }

  predicate AllSpacePieces(pieces: seq<string>) {
    forall k :: 0 <= k < |pieces| ==> AllSpace(pieces[k])
  }

  lemma AllSpacePiecesCons(x: string, r: seq<string>)
    ensures AllSpacePieces([x] + r) <==> AllSpace(x) && AllSpacePieces(r)
  {
    var s := [x] + r;
    if AllSpace(x) && AllSpacePieces(r) {
      forall k | 0 <= k < |s| ensures AllSpace(s[k]) {
        if k > 0 { assert s[k] == r[k - 1]; }
      }
    }
    if AllSpacePieces(s) {
      assert s[0] == x;
      forall k | 0 <= k < |r| ensures AllSpace(r[k]) {
        assert s[k + 1] == r[k];
      }
    }
  }

  lemma AllSpaceCons(c: char, t: string)
    ensures AllSpace([c] + t) <==> IsSpace(c) && AllSpace(t)
  {
    var s := [c] + t;
    if IsSpace(c) && AllSpace(t) {
      forall i | 0 <= i < |s| ensures IsSpace(s[i]) {
        if i > 0 { assert s[i] == t[i - 1]; }
      }
    }
    if AllSpace(s) {
      assert s[0] == c;
      forall i | 0 <= i < |t| ensures IsSpace(t[i]) {
        assert s[i + 1] == t[i];
      }
    }
  }

  lemma BlankCons(c: char, t: string)
    ensures Blank([c] + t) <==> (c == ',' || IsSpace(c)) && Blank(t)
  {
    var s := [c] + t;
    if (c == ',' || IsSpace(c)) && Blank(t) {
      forall i | 0 <= i < |s| ensures s[i] == ',' || IsSpace(s[i]) {
        if i > 0 { assert s[i] == t[i - 1]; }
      }
    }
    if Blank(s) {
      assert s[0] == c;
      forall i | 0 <= i < |t| ensures t[i] == ',' || IsSpace(t[i]) {
        assert s[i + 1] == t[i];
      }
    }
  }

  /** Nothing but the empty list survives when every piece is whitespace, and conversely. */
  lemma {:induction false} KeepEmptyIff(pieces: seq<string>)
    ensures Keep(pieces) == [] <==> AllSpacePieces(pieces)
  {
    if pieces != [] {
      var t := Strip(pieces[0]);
      assert Keep(pieces) == (if t == [] then [] else [t]) + Keep(pieces[1..]);
      KeepEmptyIff(pieces[1..]);
      StripEmptyIff(pieces[0]);
      AllSpacePiecesCons(pieces[0], pieces[1..]);
      assert [pieces[0]] + pieces[1..] == pieces;
    }
  }

  /** Every comma-separated piece is whitespace exactly when the text is blank. */
  lemma {:induction false} SplitBlank(s: string)
    ensures AllSpacePieces(Split(s, ',')) <==> Blank(s)
  {
    if s != [] {
      var rest := Split(s[1..], ',');
      SplitBlank(s[1..]);
      BlankCons(s[0], s[1..]);
      assert [s[0]] + s[1..] == s;
      if s[0] == ',' {
        AllSpacePiecesCons([], rest);
      } else {
        assert rest == [rest[0]] + rest[1..];
        AllSpacePiecesCons([s[0]] + rest[0], rest[1..]);
        AllSpacePiecesCons(rest[0], rest[1..]);
        AllSpaceCons(s[0], rest[0]);
      }
    }
  }

  /** The parse is empty exactly when the text holds nothing but commas and whitespace. */
  lemma ParseEmptyIff(content: string)
    ensures ParseItems(content) == [] <==> Blank(content)
  {
    KeepEmptyIff(Split(content, ','));
    SplitBlank(content);
  }
}

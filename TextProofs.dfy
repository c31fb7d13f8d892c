/**
 * Partners of the string helpers: `SplitOn` is undone by joining the pieces
 * with the separator, `ParseInt` reads back the decimal text of any integer,
 * and trimming stops at the first character that is not dropped.
 */
module TextProofs {
  import opened Wrappers
  import opened Text

  // ---------------------------------------------------------------------
  // Split and join
  // ---------------------------------------------------------------------

  /** `string.Join(sep, pieces)`. */
  function Join(pieces: seq<string>, sep: char): string
    requires |pieces| >= 1
  {
    if |pieces| == 1 then pieces[0] else pieces[0] + [sep] + Join(pieces[1..], sep)
  }

  /** Joining the pieces of a split gives back the text. */
  lemma {:induction false} JoinSplitOn(s: string, sep: char)
    ensures Join(SplitOn(s, sep), sep) == s
    decreases |s|
  {
    if |s| > 0 {
      var rest := SplitOn(s[1..], sep);
      JoinSplitOn(s[1..], sep);
      if s[0] == sep {
        assert ([""] + rest)[1..] == rest;
        assert s == [sep] + s[1..];
      } else {
        var r := [[s[0]] + rest[0]] + rest[1..];
        if |rest| == 1 {
          assert s == [s[0]] + s[1..];
        } else {
          assert r[1..] == rest[1..];
          assert Join(r, sep) == [s[0]] + rest[0] + [sep] + Join(rest[1..], sep);
          assert s == [s[0]] + s[1..];
        }
      }
    }
  }

  /** A text without the separator begins with another character, and neither does its tail contain it. */
  lemma HasCharTail(a: string, sep: char)
    requires |a| > 0 && !HasChar(a, sep)
    ensures a[0] != sep && !HasChar(a[1..], sep)
  {
  }

  /** A text without the separator, followed by more text: it begins the first piece. */
  lemma {:induction false} SplitOnPrefix(a: string, b: string, sep: char)
    requires !HasChar(a, sep)
    ensures SplitOn(a + b, sep) == [a + SplitOn(b, sep)[0]] + SplitOn(b, sep)[1..]
    decreases |a|
  {
    if |a| > 0 {
      HasCharTail(a, sep);
      var sb := SplitOn(b, sep);
      assert (a + b)[1..] == a[1..] + b;
      SplitOnPrefix(a[1..], b, sep);
      var rest := SplitOn(a[1..] + b, sep);
      assert rest[1..] == sb[1..];
      assert [a[0]] + (a[1..] + sb[0]) == a + sb[0];
    } else {
      var sb := SplitOn(b, sep);
      assert a + b == b;
      assert a + sb[0] == sb[0];
      assert sb == [sb[0]] + sb[1..];
    }
  }

  /** Splitting pieces joined with a separator they do not contain gives them back. */
  lemma {:induction false} SplitOnJoin(pieces: seq<string>, sep: char)
    requires |pieces| >= 1
    requires forall k :: 0 <= k < |pieces| ==> !HasChar(pieces[k], sep)
    ensures SplitOn(Join(pieces, sep), sep) == pieces
  {
    if |pieces| == 1 {
      SplitOnPrefix(pieces[0], "", sep);
      assert pieces[0] + "" == pieces[0];
      assert pieces == [pieces[0]];
    } else {
      var tail := Join(pieces[1..], sep);
      SplitOnJoin(pieces[1..], sep);
      SplitOnPrefix(pieces[0], [sep] + tail, sep);
      assert pieces[0] + [sep] + tail == pieces[0] + ([sep] + tail);
      assert ([sep] + tail)[1..] == tail;
      assert ([sep] + tail)[0] == sep;
      var st := SplitOn([sep] + tail, sep);
      assert st == [""] + pieces[1..];
      assert st[0] == "" && st[1..] == pieces[1..];
      assert pieces[0] + "" == pieces[0];
      assert pieces == [pieces[0]] + pieces[1..];
    }
  }

  // ---------------------------------------------------------------------
  // Split entries
  // ---------------------------------------------------------------------

  /** The entries are exactly the non-empty trims of the pieces. */
  lemma {:induction false} EntriesMembers(pieces: seq<string>)
    ensures forall x :: x in Entries(pieces) <==> x != "" && exists k :: 0 <= k < |pieces| && x == Trim(pieces[k])
  {
    if |pieces| > 0 {
      var rest := pieces[1..];
      EntriesMembers(rest);
      forall x
        ensures x in Entries(pieces) <==> x != "" && exists k :: 0 <= k < |pieces| && x == Trim(pieces[k])
      {
        if x in Entries(rest) {
          var k :| 0 <= k < |rest| && x == Trim(rest[k]);
          assert x == Trim(pieces[k + 1]);
        }
        if x != "" && exists k :: 0 <= k < |pieces| && x == Trim(pieces[k]) {
          var k :| 0 <= k < |pieces| && x == Trim(pieces[k]);
          if k > 0 {
            assert x == Trim(rest[k - 1]);
          }
        }
      }
    }
  }

  /** The entries keep the order of the pieces: the entries of a concatenation are the concatenated entries. */
  lemma {:induction false} EntriesAppend(a: seq<string>, b: seq<string>)
    ensures Entries(a + b) == Entries(a) + Entries(b)
  {
    if |a| > 0 {
      EntriesAppend(a[1..], b);
      assert (a + b)[1..] == a[1..] + b;
    } else {
      assert a + b == b;
    }
  }

  /** The pieces of a blank text are blank. */
  lemma {:induction false} SplitOnBlank(s: string, sep: char)
    requires IsBlank(s)
    ensures forall k :: 0 <= k < |SplitOn(s, sep)| ==> IsBlank(SplitOn(s, sep)[k])
  {
    if |s| > 0 {
      var rest := SplitOn(s[1..], sep);
      SplitOnBlank(s[1..], sep);
      if s[0] != sep {
        var first := [s[0]] + rest[0];
        assert IsBlank(first) by {
          forall i | 0 <= i < |first|
            ensures IsWhiteSpace(first[i])
          {
            if i > 0 {
              assert first[i] == rest[0][i - 1];
            }
          }
        }
      }
    }
  }

  /** Blank pieces all trim to nothing, so none is kept. */
  lemma {:induction false} EntriesOfBlank(pieces: seq<string>)
    requires forall k :: 0 <= k < |pieces| ==> IsBlank(pieces[k])
    ensures Entries(pieces) == []
  {
    if |pieces| > 0 {
      TrimEmptyIffBlank(pieces[0]);
      EntriesOfBlank(pieces[1..]);
    }
  }

  /** A blank text has no entries. */
  lemma BlankHasNoEntries(s: string, sep: char)
    requires IsBlank(s)
    ensures SplitEntries(s, sep) == []
  {
    SplitOnBlank(s, sep);
    EntriesOfBlank(SplitOn(s, sep));
  }

  /** Pieces that are all trimmed and non-empty are all kept. */
  lemma {:induction false} EntriesKeep(pieces: seq<string>)
    requires forall k :: 0 <= k < |pieces| ==> Trim(pieces[k]) == pieces[k] != ""
    ensures Entries(pieces) == pieces
  {
    if |pieces| > 0 {
      EntriesKeep(pieces[1..]);
      assert pieces == [pieces[0]] + pieces[1..];
    }
  }

  // ---------------------------------------------------------------------
  // Trimming
  // ---------------------------------------------------------------------

  /** `TrimStart` drops a prefix made of dropped characters and stops at the first kept one. */
  lemma {:induction false} TrimStartByDropsPrefix(s: string, drop: char -> bool)
    ensures |TrimStartBy(s, drop)| <= |s|
    ensures TrimStartBy(s, drop) == s[|s| - |TrimStartBy(s, drop)|..]
    ensures forall k :: 0 <= k < |s| - |TrimStartBy(s, drop)| ==> drop(s[k])
    ensures |TrimStartBy(s, drop)| > 0 ==> !drop(TrimStartBy(s, drop)[0])
  {
    if |s| > 0 && drop(s[0]) {
      TrimStartByDropsPrefix(s[1..], drop);
      var r := TrimStartBy(s[1..], drop);
      assert s[1..][|s| - 1 - |r|..] == s[|s| - |r|..];
      forall k | 0 <= k < |s| - |r|
        ensures drop(s[k])
      {
        if k > 0 {
          assert s[k] == s[1..][k - 1];
        }
      }
    }
  }

  /** `TrimEnd` drops a suffix made of dropped characters and stops at the last kept one. */
  lemma {:induction false} TrimEndByDropsSuffix(s: string, drop: char -> bool)
    ensures |TrimEndBy(s, drop)| <= |s|
    ensures TrimEndBy(s, drop) == s[..|TrimEndBy(s, drop)|]
    ensures forall k :: |TrimEndBy(s, drop)| <= k < |s| ==> drop(s[k])
    ensures |TrimEndBy(s, drop)| > 0 ==> !drop(TrimEndBy(s, drop)[|TrimEndBy(s, drop)| - 1])
  {
    if |s| > 0 && drop(s[|s| - 1]) {
      var s' := s[..|s| - 1];
      TrimEndByDropsSuffix(s', drop);
      var r := TrimEndBy(s', drop);
      assert s'[..|r|] == s[..|r|];
      forall k | |r| <= k < |s|
        ensures drop(s[k])
      {
        if k < |s| - 1 {
          assert s[k] == s'[k];
        }
      }
    }
  }

  /** A text that neither begins nor ends with white space is its own trim. */
  lemma TrimKeepsTrimmed(s: string)
    requires |s| > 0 ==> !IsWhiteSpace(s[0]) && !IsWhiteSpace(s[|s| - 1])
    ensures Trim(s) == s
  {
  }

  /** A trimmed text neither begins nor ends with white space, so trimming it again changes nothing. */
  lemma TrimIdempotent(s: string)
    ensures |Trim(s)| > 0 ==> !IsWhiteSpace(Trim(s)[0]) && !IsWhiteSpace(Trim(s)[|Trim(s)| - 1])
    ensures Trim(Trim(s)) == Trim(s)
  {
    var u := TrimStartBy(s, IsWhiteSpace);
    TrimStartByDropsPrefix(s, IsWhiteSpace);
    TrimEndByDropsSuffix(u, IsWhiteSpace);
    var t := Trim(s);
    if |t| > 0 {
      assert t[0] == u[0];
    }
    TrimKeepsTrimmed(t);
  }

  /** Trimming leaves nothing exactly when the text is all white space. */
  lemma TrimEmptyIffBlank(s: string)
    ensures Trim(s) == "" <==> IsBlank(s)
  {
    var u := TrimStartBy(s, IsWhiteSpace);
    TrimStartByDropsPrefix(s, IsWhiteSpace);
    TrimEndByDropsSuffix(u, IsWhiteSpace);
  }

  // ---------------------------------------------------------------------
  // Integers
  // ---------------------------------------------------------------------

  /** The decimal digit character of `d`. */
  function Digit(d: nat): (c: char)
    requires d < 10
    ensures IsDigit(c)
  {
    ('0' as int + d) as char
  }

  /** The decimal digits of `n`, most significant first, without leading zeros. */
  function DecimalDigits(n: nat): (r: string)
    ensures |r| > 0
    ensures forall k :: 0 <= k < |r| ==> IsDigit(r[k])
  {
    if n < 10 then [Digit(n)] else DecimalDigits(n / 10) + [Digit(n % 10)]
  }

  /** `int.ToString()`: a minus sign for negative numbers, then the decimal digits. */
  function Show(n: int): string {
    if n < 0 then "-" + DecimalDigits(0 - n) else DecimalDigits(n)
  }

  /** The digits read back as the number. */
  lemma {:induction false} DigitsValueOfDecimal(n: nat)
    ensures DigitsValue(DecimalDigits(n)) == Some(n)
  {
    var ds := DecimalDigits(n);
    if n < 10 {
      assert ds[..0] == "";
    } else {
      DigitsValueOfDecimal(n / 10);
      assert ds[..|ds| - 1] == DecimalDigits(n / 10);
    }
  }

  /** `int.TryParse` reads back the text of every integer. */
  lemma ParseIntShow(n: int)
    ensures ParseInt(Show(n)) == Some(n)
  {
    if n < 0 {
      DigitsValueOfDecimal(0 - n);
      assert Show(n)[1..] == DecimalDigits(0 - n);
    } else {
      DigitsValueOfDecimal(n);
      assert IsDigit(Show(n)[0]);
    }
  }
}

/** Text helpers shared by the report serialisers and the course materialiser:
    delimiter joins and their inverse split, PHP's decimal rendering of integers
    and `str_replace`. Strings are sequences of characters. */
module Text {

  /** Plain join: the parts with one separator between neighbours. */
  function Join(parts: seq<string>, sep: char): string
  {
    if |parts| == 0 then ""
    else if |parts| == 1 then parts[0]
    else parts[0] + [sep] + Join(parts[1..], sep)
  }

  /** Index of the first occurrence of `c` in `s`. */
  function IndexOf(s: string, c: char): (k: nat)
    requires c in s
    ensures k < |s| && s[k] == c && c !in s[..k]
  {
    if s[0] == c then 0 else 1 + IndexOf(s[1..], c)
  }

  /** Splits at every separator (the inverse of Join, see SplitJoin). */
  function Split(s: string, sep: char): (r: seq<string>)
    ensures |r| >= 1
    decreases |s|
  {
    if sep !in s then [s]
    else
      var k := IndexOf(s, sep);
      [s[..k]] + Split(s[k + 1..], sep)
  }

  predicate NoSep(parts: seq<string>, sep: char)
  {
    forall i :: 0 <= i < |parts| ==> sep !in parts[i]
  }

  /** The first separator is found where a value free of separators ends. */
  lemma {:induction false} IndexOfAt(s: string, c: char, k: nat)
    requires k < |s| && s[k] == c && c !in s[..k]
    ensures IndexOf(s, c) == k
  {
    if k > 0 {
      assert s[0] != c by { assert s[..k][0] == s[0]; }
      assert s[1..][..k - 1] == s[..k][1..];
      IndexOfAt(s[1..], c, k - 1);
    }
  }

  /** Splitting a join gives the parts back, as long as no part holds the separator. */
  lemma {:induction false} SplitJoin(parts: seq<string>, sep: char)
    requires |parts| >= 1 && NoSep(parts, sep)
    ensures Split(Join(parts, sep), sep) == parts
  {
    if |parts| > 1 {
      var rest := Join(parts[1..], sep);
      var s := parts[0] + [sep] + rest;
      assert s[..|parts[0]|] == parts[0];
      IndexOfAt(s, sep, |parts[0]|);
      assert s[|parts[0]| + 1..] == rest;
      assert NoSep(parts[1..], sep) by {
        forall i | 0 <= i < |parts[1..]| ensures sep !in parts[1..][i] {
          assert parts[1..][i] == parts[i + 1];
        }
      }
      SplitJoin(parts[1..], sep);
    }
  }

  /** Join of a non-empty list with a non-empty head is non-empty. */
  lemma {:induction false} JoinNonEmpty(parts: seq<string>, sep: char)
    requires |parts| >= 1 && parts[0] != ""
    ensures Join(parts, sep) != ""
  {
    if |parts| > 1 {
      assert |Join(parts, sep)| >= |parts[0]|;
    }
  }

  lemma {:induction false} JoinAppend(parts: seq<string>, x: string, sep: char)
    requires |parts| >= 1
    ensures Join(parts + [x], sep) == Join(parts, sep) + [sep] + x
  {
    if |parts| == 1 {
      assert parts + [x] == [parts[0], x];
      assert (parts + [x])[1..] == [x];
    } else {
      assert (parts + [x])[1..] == parts[1..] + [x];
      JoinAppend(parts[1..], x, sep);
    }
  }

  /** The accumulation loop of the source: `if ($s != '') { $s .= SEP; } $s .= $part;`
      over the parts in order. Written as a fold from the right end so that a
      loop over a growing prefix can be checked against it. */
  function GuardedJoin(parts: seq<string>, sep: char): string
  {
    if |parts| == 0 then ""
    else
      var acc := GuardedJoin(parts[..|parts| - 1], sep);
      if acc != "" then acc + [sep] + parts[|parts| - 1] else parts[|parts| - 1]
  }

  /** One more value extends the guarded accumulation by one step. */
  lemma GuardedJoinSnoc(parts: seq<string>, x: string, sep: char)
    ensures GuardedJoin(parts + [x], sep) ==
      if GuardedJoin(parts, sep) != "" then GuardedJoin(parts, sep) + [sep] + x else x
  {
    assert (parts + [x])[..|parts|] == parts;
  }

  /** A character that no part contains and that is not the separator does
      not occur in the join. */
  lemma {:induction false} JoinFree(parts: seq<string>, sep: char, c: char)
    requires c != sep && NoSep(parts, c)
    ensures c !in Join(parts, sep)
  {
    if |parts| > 1 {
      JoinFree(parts[1..], sep, c);
    }
  }

  /** The parts with their leading run of empty strings removed. */
  function DropLeadingEmpty(parts: seq<string>): (r: seq<string>)
    ensures |r| <= |parts|
    ensures r != [] ==> r[0] != ""
  {
    if |parts| == 0 then []
    else if parts[0] == "" then DropLeadingEmpty(parts[1..])
    else parts
  }

  lemma {:induction false} DropLeadingEmptyAppend(parts: seq<string>, x: string)
    ensures DropLeadingEmpty(parts + [x]) ==
            if DropLeadingEmpty(parts) == [] then (if x == "" then [] else [x])
            else DropLeadingEmpty(parts) + [x]
  {
    if |parts| == 0 {
      assert parts + [x] == [x];
      assert [x][1..] == [];
    } else if parts[0] == "" {
      assert (parts + [x])[1..] == parts[1..] + [x];
      DropLeadingEmptyAppend(parts[1..], x);
    }
  }

  /** The guarded accumulation is a plain join once the leading empty values
      are dropped: an empty first value does not produce a separator. */
  lemma {:induction false} GuardedJoinIsJoin(parts: seq<string>, sep: char)
    ensures GuardedJoin(parts, sep) == Join(DropLeadingEmpty(parts), sep)
  {
    if |parts| > 0 {
      var xs, x := parts[..|parts| - 1], parts[|parts| - 1];
      assert parts == xs + [x];
      GuardedJoinIsJoin(xs, sep);
      DropLeadingEmptyAppend(xs, x);
      var d := DropLeadingEmpty(xs);
      if d != [] {
        JoinNonEmpty(d, sep);
        JoinAppend(d, x, sep);
      }
    }
  }

  /** When every value is non-empty the guarded accumulation is the plain join. */
  lemma GuardedJoinNoEmpty(parts: seq<string>, sep: char)
    requires forall i :: 0 <= i < |parts| ==> parts[i] != ""
    ensures GuardedJoin(parts, sep) == Join(parts, sep)
  {
    GuardedJoinIsJoin(parts, sep);
  }

  // ---------------------------------------------------------------- decimals

  function DigitChar(d: nat): char
    requires d < 10
  {
    "0123456789"[d]
  }

  predicate IsDigit(c: char)
  {
    '0' <= c <= '9'
  }

  function DigitValue(c: char): nat
    requires IsDigit(c)
  {
    (c as int - '0' as int) as nat
  }

  /** Decimal rendering of a natural number, as PHP writes an integer. */
  function NatToString(n: nat): (s: string)
    ensures |s| >= 1
    ensures AllDigits(s)
  {
    if n < 10 then [DigitChar(n)] else NatToString(n / 10) + [DigitChar(n % 10)]
  }

  /** Decimal rendering of an integer, with a leading minus when negative. */
  function IntToString(i: int): (s: string)
    ensures |s| >= 1
  {
    if i < 0 then "-" + NatToString(-i) else NatToString(i)
  }

  predicate AllDigits(s: string)
  {
    forall i :: 0 <= i < |s| ==> IsDigit(s[i])
  }

  function ParseNat(s: string): nat
    requires AllDigits(s)
  {
    if |s| == 0 then 0 else ParseNat(s[..|s| - 1]) * 10 + DigitValue(s[|s| - 1])
  }

  function ParseInt(s: string): int
  {
    if |s| > 0 && s[0] == '-' && AllDigits(s[1..]) then -(ParseNat(s[1..]) as int)
    else if AllDigits(s) then ParseNat(s)
    else 0
  }

  lemma {:induction false} ParseNatToString(n: nat)
    ensures ParseNat(NatToString(n)) == n
  {
    if n >= 10 {
      var s := NatToString(n);
      assert s[..|s| - 1] == NatToString(n / 10);
      ParseNatToString(n / 10);
    }
  }

  /** Reading back a rendered integer gives the integer. */
  lemma {:induction false} ParseIntToString(i: int)
    ensures ParseInt(IntToString(i)) == i
  {
    var s := IntToString(i);
    if i < 0 {
      var n := NatToString(-i);
      assert s[1..] == n;
      ParseNatToString(-i);
    } else {
      var n := NatToString(i);
      assert s[0] != '-' by { assert IsDigit(n[0]); }
      ParseNatToString(i);
    }
  }

  /** A rendered integer holds neither a field nor a row separator. */
  lemma IntToStringPlain(i: int)
    ensures '|' !in IntToString(i) && '\n' !in IntToString(i)
  {
    var s := IntToString(i);
    if i < 0 {
      assert s == "-" + NatToString(-i);
      forall k | 0 <= k < |s| ensures s[k] != '|' && s[k] != '\n' {
        if k > 0 { assert s[k] == NatToString(-i)[k - 1]; }
      }
    }
  }

  // ------------------------------------------------------------- str_replace

  /** PHP `str_replace(pat, rep, s)`: every non-overlapping occurrence of
      `pat`, scanning left to right, is replaced by `rep`. */
  function ReplaceAll(s: string, pat: string, rep: string): string
    requires |pat| > 0
    decreases |s|
  {
    if |s| < |pat| then s
    else if s[..|pat|] == pat then rep + ReplaceAll(s[|pat|..], pat, rep)
    else [s[0]] + ReplaceAll(s[1..], pat, rep)
  }

  predicate HasPair(s: string, a: char, b: char)
  {
    exists i :: 0 <= i < |s| - 1 && s[i] == a && s[i + 1] == b
  }

  lemma {:induction false} ReplaceAllHead(s: string)
    requires |s| >= 1
    ensures |ReplaceAll(s, "MF", "TF")| == |s|
    ensures ReplaceAll(s, "MF", "TF")[0] == if |s| >= 2 && s[0] == 'M' && s[1] == 'F' then 'T' else s[0]
  {
    ReplaceMFKeepsLength(s);
    if |s| >= 2 {
      assert s[..2] == [s[0], s[1]];
    }
  }

  lemma {:induction false} ReplaceMFKeepsLength(s: string)
    ensures |ReplaceAll(s, "MF", "TF")| == |s|
    decreases |s|
  {
    if |s| >= 2 {
      if s[..2] == "MF" { ReplaceMFKeepsLength(s[2..]); } else { ReplaceMFKeepsLength(s[1..]); }
    }
  }

  /** Replacing "MF" by "TF" leaves no "MF" behind and keeps the length:
      the final-test summary of a module never names a module code. */
  lemma {:induction false} ReplaceMFRemovesAll(s: string)
    ensures |ReplaceAll(s, "MF", "TF")| == |s|
    ensures !HasPair(ReplaceAll(s, "MF", "TF"), 'M', 'F')
    decreases |s|
  {
    ReplaceMFKeepsLength(s);
    var r := ReplaceAll(s, "MF", "TF");
    if |s| >= 2 {
      if s[..2] == "MF" {
        var t := s[2..];
        ReplaceMFRemovesAll(t);
        var rt := ReplaceAll(t, "MF", "TF");
        assert r == "TF" + rt;
        forall i | 0 <= i < |r| - 1 ensures !(r[i] == 'M' && r[i + 1] == 'F') {
          if i >= 2 {
            assert r[i] == rt[i - 2] && r[i + 1] == rt[i - 1];
          }
        }
      } else {
        var t := s[1..];
        ReplaceMFRemovesAll(t);
        var rt := ReplaceAll(t, "MF", "TF");
        assert r == [s[0]] + rt;
        forall i | 0 <= i < |r| - 1 ensures !(r[i] == 'M' && r[i + 1] == 'F') {
          if i >= 1 {
            assert r[i] == rt[i - 1] && r[i + 1] == rt[i];
          } else {
            ReplaceAllHead(t);
            assert s[..2] == [s[0], s[1]];
          }
        }
      }
    }
  }

  /** A code without "MF" is left as it is. */
  lemma {:induction false} ReplaceMFIdentity(s: string)
    requires !HasPair(s, 'M', 'F')
    ensures ReplaceAll(s, "MF", "TF") == s
    decreases |s|
  {
    if |s| >= 2 {
      assert s[..2] == [s[0], s[1]];
      var t := s[1..];
      assert !HasPair(t, 'M', 'F') by {
        forall i | 0 <= i < |t| - 1 ensures !(t[i] == 'M' && t[i + 1] == 'F') {
          assert t[i] == s[i + 1] && t[i + 1] == s[i + 2];
        }
      }
      ReplaceMFIdentity(t);
    }
  }

  /** Replacing twice is replacing once. */
  lemma ReplaceMFIdempotent(s: string)
    ensures ReplaceAll(ReplaceAll(s, "MF", "TF"), "MF", "TF") == ReplaceAll(s, "MF", "TF")
  {
    ReplaceMFRemovesAll(s);
    ReplaceMFIdentity(ReplaceAll(s, "MF", "TF"));
  }

  // ------------------------------------------------------------ affixes

  predicate EndsWith(s: string, c: char)
  {
    |s| > 0 && s[|s| - 1] == c
  }
}

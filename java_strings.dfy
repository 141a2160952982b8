/** The few java.lang.String operations the valuation context relies on:
    `split` on a one-character separator, `replace(char, char)`,
    `equalsIgnoreCase`, and the decimal rendering of an int in a string
    concatenation. */
module JavaStrings {

  /** The pieces glued back together with `sep` between consecutive ones. */
  function Join(pieces: seq<string>, sep: char): string
  {
    if |pieces| == 0 then ""
    else if |pieces| == 1 then pieces[0]
    else pieces[0] + [sep] + Join(pieces[1..], sep)
  }

  /** Every piece of `s` between two occurrences of `sep`, empty pieces
      included: the raw split before Java discards anything. */
  function SplitAll(s: string, sep: char): (pieces: seq<string>)
    ensures |pieces| >= 1
    decreases |s|
  {
    if s == [] then [""]
    else
      var rest := SplitAll(s[1..], sep);
      if s[0] == sep then [""] + rest
      else [[s[0]] + rest[0]] + rest[1..]
  }

  /** No piece of the raw split holds the separator. */
  lemma {:induction false} SplitAllSepFree(s: string, sep: char)
    ensures forall k :: 0 <= k < |SplitAll(s, sep)| ==> sep !in SplitAll(s, sep)[k]
    decreases |s|
  {
    if s != [] {
      var u := s[1..];
      assert s == [s[0]] + u;
      SplitAllSepFree(u, sep);
      SplitAllCons(s[0], u, sep);
      var rest, pieces := SplitAll(u, sep), SplitAll(s, sep);
      forall k | 0 <= k < |pieces| ensures sep !in pieces[k] {
        if s[0] == sep {
          if k > 0 { assert pieces[k] == rest[k - 1]; }
        } else if k > 0 {
          assert pieces[k] == rest[k];
        } else {
          assert pieces[0] == [s[0]] + rest[0];
        }
      }
    }
  }

  /** The raw split loses nothing: gluing its pieces back gives the string. */
  lemma {:induction false} SplitAllJoinBack(s: string, sep: char)
    ensures Join(SplitAll(s, sep), sep) == s
    decreases |s|
  {
    if s != [] {
      var u := s[1..];
      assert s == [s[0]] + u;
      SplitAllJoinBack(u, sep);
      SplitAllCons(s[0], u, sep);
      var rest, pieces := SplitAll(u, sep), SplitAll(s, sep);
      if s[0] == sep {
        assert pieces[1..] == rest;
      } else {
        assert pieces[1..] == rest[1..];
        if |rest| > 1 {
          assert Join(rest, sep) == rest[0] + [sep] + Join(rest[1..], sep);
          assert Join(pieces, sep) == pieces[0] + [sep] + Join(rest[1..], sep);
        }
      }
    }
  }

  /** The raw split has more than one piece exactly when the separator occurs. */
  lemma {:induction false} SplitAllCount(s: string, sep: char)
    ensures |SplitAll(s, sep)| == 1 <==> sep !in s
    decreases |s|
  {
    if s != [] {
      var u := s[1..];
      assert s == [s[0]] + u;
      SplitAllCount(u, sep);
      SplitAllCons(s[0], u, sep);
      assert sep in s <==> s[0] == sep || sep in u;
    }
  }

  /** One character more in front: a separator opens a new empty piece,
      anything else extends the first piece. */
  lemma SplitAllCons(c: char, u: string, sep: char)
    ensures SplitAll([c] + u, sep) ==
      if c == sep then [""] + SplitAll(u, sep)
      else [[c] + SplitAll(u, sep)[0]] + SplitAll(u, sep)[1..]
  {
    assert ([c] + u)[1..] == u;
  }

  /** Splitting a sep-free prefix glued to the rest only lengthens the first piece. */
  lemma {:induction false} SplitAllPrefix(p: string, t: string, sep: char)
    requires sep !in p
    ensures SplitAll(p + t, sep) == [p + SplitAll(t, sep)[0]] + SplitAll(t, sep)[1..]
    decreases |p|
  {
    var rest := SplitAll(t, sep);
    if p == [] {
      assert p + t == t;
      assert p + rest[0] == rest[0];
      assert [p + rest[0]] + rest[1..] == rest;
    } else {
      assert p + t == [p[0]] + (p[1..] + t);
      SplitAllCons(p[0], p[1..] + t, sep);
      SplitAllPrefix(p[1..], t, sep);
      var r := SplitAll(p[1..] + t, sep);
      assert r[0] == p[1..] + rest[0];
      assert r[1..] == rest[1..];
      assert [p[0]] + r[0] == p + rest[0];
    }
  }

  /** Round trip: splitting what `Join` built from sep-free pieces gives the pieces back. */
  lemma {:induction false} SplitAllJoin(pieces: seq<string>, sep: char)
    requires |pieces| >= 1
    requires forall k :: 0 <= k < |pieces| ==> sep !in pieces[k]
    ensures SplitAll(Join(pieces, sep), sep) == pieces
  {
    if |pieces| == 1 {
      SplitAllPrefix(pieces[0], "", sep);
      assert pieces[0] + "" == pieces[0];
      assert pieces == [pieces[0]];
    } else {
      var tail := Join(pieces[1..], sep);
      SplitAllJoin(pieces[1..], sep);
      SplitAllCons(sep, tail, sep);
      var u := [sep] + tail;
      assert SplitAll(u, sep) == [""] + pieces[1..];
      assert Join(pieces, sep) == pieces[0] + u;
      SplitAllPrefix(pieces[0], u, sep);
      assert pieces[0] + "" == pieces[0];
      assert ([""] + pieces[1..])[1..] == pieces[1..];
      assert pieces == [pieces[0]] + pieces[1..];
    }
  }

  /** The pieces without their run of trailing empty strings. */
  function DropTrailingEmpty(pieces: seq<string>): (kept: seq<string>)
    ensures |kept| <= |pieces| && kept == pieces[..|kept|]
    ensures |kept| == 0 || kept[|kept| - 1] != ""
    ensures forall k :: |kept| <= k < |pieces| ==> pieces[k] == ""
  {
    if |pieces| > 0 && pieces[|pieces| - 1] == "" then DropTrailingEmpty(pieces[..|pieces| - 1])
    else pieces
  }

  /** `s.split(sep)` with Java's default limit of zero: a string without the
      separator is returned whole (so "" gives [""]); otherwise the raw split
      loses its trailing empty pieces (so "#" gives no piece at all). */
  function JavaSplit(s: string, sep: char): (groups: seq<string>)
    ensures sep !in s ==> groups == [s]
    ensures sep in s ==>
      var raw := SplitAll(s, sep);
      && |groups| <= |raw| && groups == raw[..|groups|]
      && (|groups| == 0 || groups[|groups| - 1] != "")
      && forall k :: |groups| <= k < |raw| ==> raw[k] == ""
  {
    if sep !in s then [s] else DropTrailingEmpty(SplitAll(s, sep))
  }

  /** Splitting sep-free pieces whose last one is not empty, once joined,
      gives exactly those pieces back. */
  lemma JavaSplitJoin(pieces: seq<string>, sep: char)
    requires |pieces| >= 1
    requires |pieces| == 1 || pieces[|pieces| - 1] != ""
    requires forall k :: 0 <= k < |pieces| ==> sep !in pieces[k]
    ensures JavaSplit(Join(pieces, sep), sep) == pieces
  {
    if |pieces| == 1 {
      assert Join(pieces, sep) == pieces[0];
    } else {
      SplitAllJoin(pieces, sep);
      assert sep in Join(pieces, sep) by {
        assert Join(pieces, sep) == pieces[0] + [sep] + Join(pieces[1..], sep);
        assert Join(pieces, sep)[|pieces[0]|] == sep;
      }
    }
  }

  /** `s.replace(from, to)` on a single character. */
  function ReplaceChar(s: string, from: char, to: char): (r: string)
    ensures |r| == |s|
    ensures forall i :: 0 <= i < |s| ==> r[i] == (if s[i] == from then to else s[i])
  {
    if s == [] then [] else [if s[0] == from then to else s[0]] + ReplaceChar(s[1..], from, to)
  }

  /** Replacing the separator of a join is joining with the other separator. */
  lemma {:induction false} ReplaceCharJoin(pieces: seq<string>, from: char, to: char)
    requires forall k :: 0 <= k < |pieces| ==> from !in pieces[k]
    ensures ReplaceChar(Join(pieces, from), from, to) == Join(pieces, to)
  {
    if |pieces| > 1 {
      ReplaceCharJoin(pieces[1..], from, to);
    }
    var s, t := Join(pieces, from), Join(pieces, to);
    if |pieces| > 1 {
      var head := pieces[0];
      assert s == head + [from] + Join(pieces[1..], from);
      assert t == head + [to] + Join(pieces[1..], to);
      forall i | 0 <= i < |s| ensures ReplaceChar(s, from, to)[i] == t[i] {
        if i < |head| {
          assert s[i] == head[i] && s[i] != from;
        } else if i > |head| {
          assert s[i] == Join(pieces[1..], from)[i - |head| - 1];
        }
      }
    } else if |pieces| == 1 {
      forall i | 0 <= i < |s| ensures ReplaceChar(s, from, to)[i] == t[i] {
        assert s[i] == pieces[0][i];
      }
    }
  }

  /** ASCII case folding, the part of Java's case mapping this model keeps. */
  function ToLowerAscii(c: char): char
  {
    if 'A' <= c <= 'Z' then (c as int - 'A' as int + 'a' as int) as char else c
  }

  /** The string with every ASCII capital made small. */
  function ToLowerAsciiString(s: string): (r: string)
    ensures |r| == |s|
    ensures forall i :: 0 <= i < |s| ==> r[i] == ToLowerAscii(s[i])
  {
    if s == [] then [] else [ToLowerAscii(s[0])] + ToLowerAsciiString(s[1..])
  }

  /** `a.equalsIgnoreCase(b)` for strings whose letters are ASCII: the same
      length and, character by character, the same once folded. It agrees
      with comparing the two strings lower-cased as a whole. */
  predicate EqualsIgnoreCase(a: string, b: string): (r: bool)
    ensures r <==> ToLowerAsciiString(a) == ToLowerAsciiString(b)
  {
    assert ToLowerAsciiString(a) == ToLowerAsciiString(b) ==> |a| == |b| && forall i :: 0 <= i < |a| ==>
      ToLowerAscii(a[i]) == ToLowerAsciiString(a)[i] == ToLowerAsciiString(b)[i] == ToLowerAscii(b[i]);
    |a| == |b| && forall i :: 0 <= i < |a| ==> ToLowerAscii(a[i]) == ToLowerAscii(b[i])
  }

  /** Case-insensitive equality is an equivalence that relates equal strings
      and strings differing only in the case of ASCII letters. */
  lemma EqualsIgnoreCaseEquivalence(a: string, b: string, c: string)
    ensures EqualsIgnoreCase(a, a)
    ensures EqualsIgnoreCase(a, b) ==> EqualsIgnoreCase(b, a)
    ensures EqualsIgnoreCase(a, b) && EqualsIgnoreCase(b, c) ==> EqualsIgnoreCase(a, c)
  {
  }

  function DigitChar(d: nat): (c: char)
    requires d < 10
    ensures '0' <= c <= '9'
    ensures c as int - '0' as int == d
  {
    ('0' as int + d) as char
  }

  /** The decimal digits of `n`, as `"" + n` produces them for a non-negative int. */
  function NatToString(n: nat): (r: string)
    ensures |r| >= 1
    ensures forall k :: 0 <= k < |r| ==> '0' <= r[k] <= '9'
    ensures |r| == 1 <==> n < 10
    decreases n
  {
    if n < 10 then [DigitChar(n)] else NatToString(n / 10) + [DigitChar(n % 10)]
  }

  /** The number a string of decimal digits spells, most significant first. */
  function DecimalValue(r: string): nat
    requires forall k :: 0 <= k < |r| ==> '0' <= r[k] <= '9'
  {
    if r == [] then 0
    else DecimalValue(r[..|r| - 1]) * 10 + (r[|r| - 1] as int - '0' as int)
  }

  /** The rendering spells `n` in decimal. */
  lemma {:induction false} NatToStringValue(n: nat)
    ensures DecimalValue(NatToString(n)) == n
    decreases n
  {
    var r := NatToString(n);
    if n < 10 {
      assert r[..0] == [];
    } else {
      NatToStringValue(n / 10);
      assert r[..|r| - 1] == NatToString(n / 10);
    }
  }

  /** Distinct numbers are rendered as distinct strings. */
  lemma {:induction false} NatToStringInjective(a: nat, b: nat)
    requires NatToString(a) == NatToString(b)
    ensures a == b
    decreases a
  {
    var r := NatToString(a);
    if a >= 10 && b >= 10 {
      assert r[..|r| - 1] == NatToString(a / 10);
      assert NatToString(b)[..|r| - 1] == NatToString(b / 10);
      assert DigitChar(a % 10) == r[|r| - 1] == DigitChar(b % 10);
      NatToStringInjective(a / 10, b / 10);
    } else {
      assert DigitChar(a) == r[0] == DigitChar(b);
    }
  }
}

/** The parts of Go's `strings` package that the handler relies on, for a
    one-character separator: `strings.Split` and its inverse `strings.Join`,
    plus the handler's own `stringInSlice` (main.go). */
module GoStrings {

  /** `strings.Join`: the parts with `sep` between neighbours. */
  function Join(parts: seq<string>, sep: char): string
    requires |parts| >= 1
    decreases |parts|
  {
    if |parts| == 1 then parts[0] else parts[0] + [sep] + Join(parts[1..], sep)
  }

  /** `strings.Split(s, sep)`: the maximal pieces of `s` between occurrences of
      `sep`. There is always at least one piece (`Split("", sep) == [""]`),
      no piece contains `sep`, and joining the pieces gives `s` back. */
  function Split(s: string, sep: char): (parts: seq<string>)
    ensures |parts| >= 1
    ensures forall i :: 0 <= i < |parts| ==> sep !in parts[i]
    ensures Join(parts, sep) == s
    decreases |s|
  {
    if |s| == 0 then [""]
    else
      var rest := Split(s[1..], sep);
      if s[0] == sep then
        assert s == [sep] + Join(rest, sep);
        [""] + rest
      else
        var parts := [[s[0]] + rest[0]] + rest[1..];
        assert parts[1..] == rest[1..];
        assert Join(parts, sep) == [s[0]] + Join(rest, sep);
        assert s == [s[0]] + s[1..];
        parts
  }

  /** A string without the separator is a single piece. */
  lemma {:induction false} SplitNoSep(a: string, sep: char)
    requires sep !in a
    ensures Split(a, sep) == [a]
    decreases |a|
  {
    if |a| > 0 {
      assert sep !in a[1..];
      SplitNoSep(a[1..], sep);
      assert [a[0]] + a[1..] == a;
    }
  }

  /** Splitting after a separator-free first piece peels that piece off. */
  lemma {:induction false} SplitAfterPiece(a: string, b: string, sep: char)
    requires sep !in a
    ensures Split(a + [sep] + b, sep) == [a] + Split(b, sep)
    decreases |a|
  {
    var s := a + [sep] + b;
    if |a| == 0 {
      assert s[0] == sep && s[1..] == b;
    } else {
      assert s[0] == a[0] && s[0] != sep;
      assert s[1..] == a[1..] + [sep] + b;
      assert sep !in a[1..];
      SplitAfterPiece(a[1..], b, sep);
      assert [a[0]] + a[1..] == a;
    }
  }

  /** Round trip: splitting the join of separator-free pieces recovers them. */
  lemma {:induction false} SplitJoin(parts: seq<string>, sep: char)
    requires |parts| >= 1
    requires forall i :: 0 <= i < |parts| ==> sep !in parts[i]
    ensures Split(Join(parts, sep), sep) == parts
    decreases |parts|
  {
    if |parts| == 1 {
      SplitNoSep(parts[0], sep);
    } else {
      assert sep !in parts[0];
      SplitJoin(parts[1..], sep);
      SplitAfterPiece(parts[0], Join(parts[1..], sep), sep);
      assert [parts[0]] + parts[1..] == parts;
    }
  }

  /** The first piece is the longest separator-free prefix of `s`: it is a
      prefix, it holds no separator, and it stops at a separator or at the
      end of `s`. */
  lemma HeadPiece(s: string, sep: char)
    ensures Split(s, sep)[0] <= s
    ensures sep !in Split(s, sep)[0]
    ensures |Split(s, sep)[0]| < |s| ==> s[|Split(s, sep)[0]|] == sep
    ensures |Split(s, sep)| == 1 <==> sep !in s
  {
    var parts := Split(s, sep);
    if |parts| > 1 {
      assert s == parts[0] + [sep] + Join(parts[1..], sep);
      assert s[|parts[0]|] == sep;
    } else {
      assert s == parts[0];
    }
  }

  /** When there are two or more pieces, the pieces after the first are the
      pieces of the text after the first separator. */
  lemma TailPieces(s: string, sep: char)
    requires |Split(s, sep)| >= 2
    ensures |Split(s, sep)[0]| < |s|
    ensures Split(s, sep)[1..] == Split(s[|Split(s, sep)[0]| + 1..], sep)
  {
    var parts := Split(s, sep);
    var rest := Join(parts[1..], sep);
    assert s == parts[0] + [sep] + rest;
    assert s[|parts[0]| + 1..] == rest;
    SplitJoin(parts[1..], sep);
  }

  /** If `s` has a separator at `i` and none before it, the first piece ends
      at `i` and there is a second piece. */
  lemma FirstSeparatorAt(s: string, sep: char, i: nat)
    requires i < |s| && s[i] == sep && sep !in s[..i]
    ensures |Split(s, sep)[0]| == i
    ensures |Split(s, sep)| >= 2
  {
    HeadPiece(s, sep);
    var h := Split(s, sep)[0];
    forall k | 0 <= k < i ensures s[k] != sep {
      assert s[..i][k] == s[k];
    }
    forall k | 0 <= k < |h| ensures s[k] != sep {
      assert h[k] == s[k];
    }
  }

  /** The first piece is exactly the separator-free word `w` iff `s` is `w`
      or starts with `w` followed by the separator. */
  lemma HeadPieceIs(s: string, sep: char, w: string)
    requires sep !in w
    ensures Split(s, sep)[0] == w <==> (s == w || w + [sep] <= s)
  {
    HeadPiece(s, sep);
    var h := Split(s, sep)[0];
    if s == w || w + [sep] <= s {
      forall k | 0 <= k < |w| ensures s[k] != sep {
        assert w[k] == s[k];
      }
      forall k | 0 <= k < |h| ensures s[k] != sep {
        assert h[k] == s[k];
      }
      if s != w {
        assert s[|w|] == (w + [sep])[|w|] == sep;
      }
      assert |h| == |w|;
      assert h == s[..|h|] == w;
    }
    if h == w && |h| < |s| {
      assert s[..|h| + 1] == w + [sep];
    }
  }

  /** The second piece is the separator-free word `w` iff the text after the
      first separator is `w` or starts with `w` followed by the separator. */
  lemma SecondPieceIs(s: string, sep: char, w: string)
    requires sep !in w
    ensures (|Split(s, sep)| >= 2 && Split(s, sep)[1] == w) <==>
      exists i :: 0 <= i < |s| && s[i] == sep && sep !in s[..i]
        && (s[i + 1..] == w || w + [sep] <= s[i + 1..])
  {
    HeadPiece(s, sep);
    var h := Split(s, sep)[0];
    if |Split(s, sep)| >= 2 && Split(s, sep)[1] == w {
      TailPieces(s, sep);
      HeadPieceIs(s[|h| + 1..], sep, w);
      assert s[..|h|] == h;
    }
    if exists i :: 0 <= i < |s| && s[i] == sep && sep !in s[..i]
        && (s[i + 1..] == w || w + [sep] <= s[i + 1..]) {
      var i :| 0 <= i < |s| && s[i] == sep && sep !in s[..i]
        && (s[i + 1..] == w || w + [sep] <= s[i + 1..]);
      FirstSeparatorAt(s, sep, i);
      TailPieces(s, sep);
      HeadPieceIs(s[i + 1..], sep, w);
    }
  }

  /** `stringInSlice` (main.go): whether some element of `list` equals `a`
      exactly. */
  function StringInSlice(a: string, list: seq<string>): (found: bool)
    ensures found <==> exists i :: 0 <= i < |list| && list[i] == a
    ensures |list| == 0 ==> !found
  {
    if |list| == 0 then false
    else if list[0] == a then true
    else
      var tailFound := StringInSlice(a, list[1..]);
      assert forall i :: 1 <= i < |list| ==> list[i] == list[1..][i - 1];
      tailFound
  }
}

/** The JavaScript string operations the admin pages use: ASCII case folding,
    `includes`, `endsWith`, `trim`, `join` and `split`. Strings are sequences
    of characters. */
module Text {

  /** ASCII case folding of one character: 'A'..'Z' become 'a'..'z'. */
  function LowerChar(c: char): char
  {
    if 'A' <= c <= 'Z' then (c as int + 32) as char else c
  }

  /** ASCII lower-casing of a whole string. */
  function Lower(s: string): (r: string)
    ensures |r| == |s|
    ensures forall i :: 0 <= i < |s| ==> !('A' <= r[i] <= 'Z')
    ensures forall i :: 0 <= i < |s| && !('A' <= s[i] <= 'Z') ==> r[i] == s[i]
    ensures forall i :: 0 <= i < |s| && 'A' <= s[i] <= 'Z' ==> r[i] as int == s[i] as int + 32
  {
    seq(|s|, i requires 0 <= i < |s| => LowerChar(s[i]))
  }

  /** `needle` stands at position `i` of `hay`. */
  predicate OccursAt(hay: string, needle: string, i: int)
  {
    0 <= i && i + |needle| <= |hay| && hay[i..i + |needle|] == needle
  }

  /** `hay.includes(needle)`: `needle` occurs somewhere in `hay`. */
  function Includes(hay: string, needle: string): bool
    decreases |hay|
  {
    if |needle| <= |hay| && hay[..|needle|] == needle then true
    else if hay == [] then false
    else Includes(hay[1..], needle)
  }

  /** The scan of `Includes` finds `needle` exactly when it stands at some
      position of `hay`. */
  lemma {:induction false} IncludesAt(hay: string, needle: string)
    ensures Includes(hay, needle) <==> exists i :: OccursAt(hay, needle, i)
    decreases |hay|
  {
    if |needle| <= |hay| && hay[..|needle|] == needle {
      assert OccursAt(hay, needle, 0);
    } else if hay == [] {
    } else {
      IncludesAt(hay[1..], needle);
      if Includes(hay, needle) {
        var i :| OccursAt(hay[1..], needle, i);
        assert hay[1..][i..i + |needle|] == hay[i + 1..i + 1 + |needle|];
        assert OccursAt(hay, needle, i + 1);
      }
      if exists i :: OccursAt(hay, needle, i) {
        var i :| OccursAt(hay, needle, i);
        assert i != 0;
        assert hay[1..][i - 1..i - 1 + |needle|] == hay[i..i + |needle|];
        assert OccursAt(hay[1..], needle, i - 1);
      }
    }
  }

  /** Every string includes the empty string, so an empty search matches. */
  lemma IncludesEmpty(hay: string)
    ensures Includes(hay, [])
  {
    assert hay[..0] == [];
  }

  /** `s.endsWith(suffix)`, which is also what a regular expression
      `\.ext$` without the `m` flag tests. */
  predicate EndsWith(s: string, suffix: string)
  {
    |suffix| <= |s| && s[|s| - |suffix|..] == suffix
  }

  /** The characters JavaScript's `String.prototype.trim` removes: the
      WhiteSpace and LineTerminator code points of ECMAScript. */
  predicate IsJsSpace(c: char)
  {
    c == '\t' || c == '\n' || c == '\U{000B}' || c == '\U{000C}' || c == '\r' || c == ' '
    || c == '\U{00A0}' || c == '\U{1680}' || ('\U{2000}' <= c <= '\U{200A}')
    || c == '\U{2028}' || c == '\U{2029}' || c == '\U{202F}' || c == '\U{205F}'
    || c == '\U{3000}' || c == '\U{FEFF}'
  }

  /** `s` without its leading white space. */
  function TrimStart(s: string): (r: string)
    ensures |r| <= |s| && r == s[|s| - |r|..]
    ensures forall j :: 0 <= j < |s| - |r| ==> IsJsSpace(s[j])
    ensures r != [] ==> !IsJsSpace(r[0])
  {
    if s != [] && IsJsSpace(s[0]) then TrimStart(s[1..]) else s
  }

  /** `s` without its trailing white space. */
  function TrimEnd(s: string): (r: string)
    ensures |r| <= |s| && r == s[..|r|]
    ensures forall j :: |r| <= j < |s| ==> IsJsSpace(s[j])
    ensures r != [] ==> !IsJsSpace(r[|r| - 1])
  {
    if s != [] && IsJsSpace(s[|s| - 1]) then TrimEnd(s[..|s| - 1]) else s
  }

  /** `s.trim()`. */
  function Trim(s: string): string
  {
    TrimEnd(TrimStart(s))
  }

  /** `s.trim()` is a piece of `s` that starts and ends with a character that is
      not white space, and it is empty exactly when `s` is all white space. */
  lemma TrimSpec(s: string)
    ensures exists k :: OccursAt(s, Trim(s), k)
    ensures Trim(s) != [] ==> !IsJsSpace(Trim(s)[0]) && !IsJsSpace(Trim(s)[|Trim(s)| - 1])
    ensures Trim(s) == [] <==> forall i :: 0 <= i < |s| ==> IsJsSpace(s[i])
  {
    var t := TrimStart(s);
    var k := |s| - |t|;
    assert OccursAt(s, Trim(s), k);
    if Trim(s) == [] {
      forall i | 0 <= i < |s| ensures IsJsSpace(s[i]) {
      }
    }
    if Trim(s) != [] {
      assert Trim(s)[0] == t[0];
    }
  }

  /** `xs.join(sep)`. */
  function Join(xs: seq<string>, sep: string): string
  {
    if xs == [] then []
    else if |xs| == 1 then xs[0]
    else xs[0] + sep + Join(xs[1..], sep)
  }

  /** `s.split(sep)` for a non-empty separator: the pieces between the
      occurrences of `sep` found from left to right. */
  function Split(s: string, sep: string): (r: seq<string>)
    requires sep != []
    ensures r != []
    decreases |s|
  {
    if |s| < |sep| then [s]
    else if s[..|sep|] == sep then [[]] + Split(s[|sep|..], sep)
    else
      var rest := Split(s[1..], sep);
      [[s[0]] + rest[0]] + rest[1..]
  }

  /** A string that does not contain the separator's first character is a
      single piece. */
  lemma {:induction false} SplitWhole(x: string, sep: string)
    requires sep != [] && sep[0] !in x
    ensures Split(x, sep) == [x]
    decreases |x|
  {
    if |x| >= |sep| {
      assert x[..|sep|][0] == x[0];
      SplitWhole(x[1..], sep);
      assert [x[0]] + x[1..] == x;
    }
  }

  /** The first piece ends at the first separator when the piece itself does
      not contain the separator's first character. */
  lemma {:induction false} SplitFirst(x: string, sep: string, rest: string)
    requires sep != [] && sep[0] !in x
    ensures Split(x + sep + rest, sep) == [x] + Split(rest, sep)
    decreases |x|
  {
    var s := x + sep + rest;
    if x == [] {
      assert s[..|sep|] == sep && s[|sep|..] == rest;
    } else {
      assert s[..|sep|][0] == x[0];
      assert s[1..] == x[1..] + sep + rest;
      SplitFirst(x[1..], sep, rest);
      assert [x[0]] + x[1..] == x;
    }
  }

  /** Splitting a join gives back the pieces, as long as no piece contains the
      separator's first character. */
  lemma {:induction false} SplitJoin(xs: seq<string>, sep: string)
    requires xs != [] && sep != []
    requires forall i :: 0 <= i < |xs| ==> sep[0] !in xs[i]
    ensures Split(Join(xs, sep), sep) == xs
    decreases |xs|
  {
    if |xs| == 1 {
      SplitWhole(xs[0], sep);
    } else {
      SplitJoin(xs[1..], sep);
      SplitFirst(xs[0], sep, Join(xs[1..], sep));
      assert [xs[0]] + xs[1..] == xs;
    }
  }

  /** A join of two or more pieces has the separator right after the first
      piece. */
  lemma JoinHasSeparator(xs: seq<string>, sep: string)
    requires |xs| >= 2 && sep != []
    ensures |xs[0]| < |Join(xs, sep)| && Join(xs, sep)[|xs[0]|] == sep[0]
  {
    assert Join(xs, sep) == xs[0] + sep + Join(xs[1..], sep);
  }

  /** The first piece of a join starts the joined text. */
  lemma JoinStartsWithFirst(xs: seq<string>, sep: string)
    requires xs != []
    ensures |xs[0]| <= |Join(xs, sep)| && Join(xs, sep)[..|xs[0]|] == xs[0]
  {
    if |xs| >= 2 {
      assert Join(xs, sep) == xs[0] + (sep + Join(xs[1..], sep));
    }
  }

  /** Joining the pieces of a split with the same separator gives back the
      text, for every text. */
  lemma {:induction false} JoinSplit(s: string, sep: string)
    requires sep != []
    ensures Join(Split(s, sep), sep) == s
    decreases |s|
  {
    if |s| < |sep| {
    } else if s[..|sep|] == sep {
      var rest := Split(s[|sep|..], sep);
      JoinSplit(s[|sep|..], sep);
      var xs := [[]] + rest;
      assert xs[0] == [] && xs[1..] == rest;
      assert Join(xs, sep) == [] + sep + Join(rest, sep);
      assert s == s[..|sep|] + s[|sep|..];
    } else {
      var rest := Split(s[1..], sep);
      JoinSplit(s[1..], sep);
      var xs := [[s[0]] + rest[0]] + rest[1..];
      if |rest| == 1 {
        assert Join(xs, sep) == [s[0]] + Join(rest, sep);
      } else {
        assert xs[1..] == rest[1..];
        assert Join(rest, sep) == rest[0] + sep + Join(rest[1..], sep);
        assert Join(xs, sep) == [s[0]] + Join(rest, sep);
      }
      assert s == [s[0]] + s[1..];
    }
  }

  /** No piece of a split contains the separator: each piece ends at the
      first occurrence of the separator after it starts. */
  lemma {:induction false} SplitNoSeparator(s: string, sep: string)
    requires sep != []
    ensures forall i, k :: 0 <= i < |Split(s, sep)| ==> !OccursAt(Split(s, sep)[i], sep, k)
    decreases |s|
  {
    var r := Split(s, sep);
    if |s| < |sep| {
    } else if s[..|sep|] == sep {
      SplitNoSeparator(s[|sep|..], sep);
      var rest := Split(s[|sep|..], sep);
      forall i, k | 0 <= i < |r| ensures !OccursAt(r[i], sep, k) {
        if i > 0 {
          assert r[i] == rest[i - 1];
        }
      }
    } else {
      SplitNoSeparator(s[1..], sep);
      var rest := Split(s[1..], sep);
      var first := [s[0]] + rest[0];
      JoinSplit(s, sep);
      JoinStartsWithFirst(r, sep);
      assert r[0] == first;
      forall i, k | 0 <= i < |r| ensures !OccursAt(r[i], sep, k) {
        if i > 0 {
          assert r[i] == rest[i];
        } else if k != 0 && OccursAt(first, sep, k) {
          assert first[k..k + |sep|] == rest[0][k - 1..k - 1 + |sep|];
          assert OccursAt(rest[0], sep, k - 1);
        }
      }
    }
  }

  /** An occurrence at position `k + 1` is an occurrence at `k` once the
      first character is dropped. */
  lemma OccursAtTail(s: string, sep: string, k: nat)
    requires s != []
    ensures OccursAt(s, sep, k + 1) <==> OccursAt(s[1..], sep, k)
  {
    if k + 1 + |sep| <= |s| {
      assert s[1..][k..k + |sep|] == s[k + 1..k + 1 + |sep|];
    }
  }

  /** `split` cuts at the leftmost occurrence of the separator: the first
      piece is the text up to the first occurrence, and the remaining pieces
      are the split of the text after it. With JoinSplit this determines the
      split even for a separator that overlaps itself. */
  lemma {:induction false} SplitLeftmost(s: string, sep: string)
    requires sep != []
    ensures forall k :: 0 <= k < |Split(s, sep)[0]| ==> !OccursAt(s, sep, k)
    ensures |Split(s, sep)| == 1 ==> Split(s, sep)[0] == s
    ensures |Split(s, sep)| > 1 ==>
      OccursAt(s, sep, |Split(s, sep)[0]|) &&
      Split(s, sep)[1..] == Split(s[|Split(s, sep)[0]| + |sep|..], sep)
    decreases |s|
  {
    var r := Split(s, sep);
    if |s| < |sep| {
    } else if s[..|sep|] == sep {
      assert OccursAt(s, sep, 0);
    } else {
      SplitLeftmost(s[1..], sep);
      var rest := Split(s[1..], sep);
      assert r[0] == [s[0]] + rest[0] && r[1..] == rest[1..];
      forall k | 0 <= k < |r[0]| ensures !OccursAt(s, sep, k) {
        if k > 0 {
          OccursAtTail(s, sep, k - 1);
        }
      }
      if |rest| == 1 {
        assert r[0] == [s[0]] + s[1..] == s;
      } else {
        var q := |rest[0]|;
        OccursAtTail(s, sep, q);
        assert s[1..][q + |sep|..] == s[q + 1 + |sep|..];
      }
    }
  }
}

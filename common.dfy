/** Python string and sequence primitives the metadata scripts rely on, stated with
    Python's own semantics: `str.split` on a one-character separator, `sep.join`,
    `str.replace`, the `in` substring test, `s[n:]`, `str.isdigit`/`int` on decimal
    text and `str(int)`. */
module Common {

  datatype Option<+T> = None | Some(value: T)

  // ---------------------------------------------------------------------------
  // Substring test: Python's `sub in s`

  predicate Contains(s: string, sub: string)
    decreases |s|
  {
    if |s| < |sub| then false
    else s[..|sub|] == sub || Contains(s[1..], sub)
  }

  /** A text contains every text it is built around. */
  lemma {:induction false} ContainsWithin(p: string, sub: string, q: string)
    ensures Contains(p + sub + q, sub)
    decreases |p|
  {
    var s := p + sub + q;
    if p == [] {
      assert s[..|sub|] == sub;
    } else {
      assert s[1..] == p[1..] + sub + q;
      ContainsWithin(p[1..], sub, q);
    }
  }

  // ---------------------------------------------------------------------------
  // Python `s.split(c)` for a one-character separator

  function Split(s: string, c: char): (r: seq<string>)
    ensures |r| >= 1
  {
    if s == [] then [""]
    else if s[0] == c then [""] + Split(s[1..], c)
    else
      var t := Split(s[1..], c);
      [[s[0]] + t[0]] + t[1..]
  }

  /** No piece of a split contains the separator. */
  lemma {:induction false} SplitPiecesFree(s: string, c: char)
    ensures forall p :: p in Split(s, c) ==> c !in p
  {
    if s != [] {
      SplitPiecesFree(s[1..], c);
    }
  }

  /** Python `sep.join(parts)`. */
  function Join(parts: seq<string>, sep: string): string
  {
    if |parts| == 0 then ""
    else if |parts| == 1 then parts[0]
    else parts[0] + sep + Join(parts[1..], sep)
  }

  lemma {:induction false} JoinSnoc(parts: seq<string>, x: string, sep: string)
    requires |parts| >= 1
    ensures Join(parts + [x], sep) == Join(parts, sep) + sep + x
  {
    if |parts| == 1 {
      assert (parts + [x])[1..] == [x];
    } else {
      assert (parts + [x])[1..] == parts[1..] + [x];
      JoinSnoc(parts[1..], x, sep);
    }
  }

  /** Joining the pieces of a split with the separator gives the original text back. */
  lemma {:induction false} JoinSplit(s: string, c: char)
    ensures Join(Split(s, c), [c]) == s
  {
    if s != [] {
      var t := Split(s[1..], c);
      JoinSplit(s[1..], c);
      if s[0] == c {
        assert Split(s, c) == [""] + t;
        assert ([""] + t)[1..] == t;
      } else {
        if |t| >= 2 {
          assert Join(t, [c]) == t[0] + [c] + Join(t[1..], [c]);
          assert ([[s[0]] + t[0]] + t[1..])[1..] == t[1..];
        }
      }
    }
  }

  lemma {:induction false} SplitNoSeparator(s: string, c: char)
    requires c !in s
    ensures Split(s, c) == [s]
  {
    if s != [] {
      SplitNoSeparator(s[1..], c);
      assert [s[0]] + s[1..] == s;
    }
  }

  lemma {:induction false} SplitAfterPiece(a: string, b: string, c: char)
    requires c !in a
    ensures Split(a + [c] + b, c) == [a] + Split(b, c)
  {
    if a == [] {
      assert a + [c] + b == [c] + b;
      assert ([c] + b)[1..] == b;
    } else {
      assert (a + [c] + b)[1..] == a[1..] + [c] + b;
      SplitAfterPiece(a[1..], b, c);
      assert [a[0]] + a[1..] == a;
    }
  }

  lemma AppendAssoc<T>(a: seq<T>, b: seq<T>, c: seq<T>)
    ensures a + b + c == a + (b + c)
  {
  }

  /** A prefix grows by the next element. */
  lemma PrefixSnoc<T>(s: seq<T>, i: nat)
    requires i < |s|
    ensures s[..i + 1] == s[..i] + [s[i]]
  {
  }

  /** Splitting around one separator splits the two sides independently. */
  lemma {:induction false} SplitAppend(a: string, b: string, c: char)
    ensures Split(a + [c] + b, c) == Split(a, c) + Split(b, c)
  {
    var s := a + [c] + b;
    if a == [] {
      assert s[0] == c && s[1..] == b;
      assert Split(s, c) == [""] + Split(b, c);
      assert Split(a, c) == [""];
    } else {
      assert s[0] == a[0] && s[1..] == a[1..] + [c] + b;
      SplitAppend(a[1..], b, c);
      var u, v := Split(a[1..], c), Split(b, c);
      assert Split(s[1..], c) == u + v;
      if a[0] == c {
        assert Split(s, c) == [""] + (u + v);
        assert Split(a, c) == [""] + u;
        AppendAssoc([""], u, v);
      } else {
        assert (u + v)[0] == u[0] && (u + v)[1..] == u[1..] + v;
        assert Split(s, c) == [[a[0]] + u[0]] + (u[1..] + v);
        assert Split(a, c) == [[a[0]] + u[0]] + u[1..];
        AppendAssoc([[a[0]] + u[0]], u[1..], v);
      }
    }
  }

  /** A last piece without the separator is split off as it is. */
  lemma SplitLastOn(first: string, last: string, c: char)
    requires c !in last
    ensures Split(first + [c] + last, c) == Split(first, c) + [last]
  {
    SplitNoSeparator(last, c);
    SplitAppend(first, last, c);
  }

  /** Splitting a join gives the parts back when no part contains the separator. */
  lemma {:induction false} SplitJoin(parts: seq<string>, c: char)
    requires |parts| >= 1
    requires forall p :: p in parts ==> c !in p
    ensures Split(Join(parts, [c]), c) == parts
  {
    if |parts| == 1 {
      SplitNoSeparator(parts[0], c);
    } else {
      SplitJoin(parts[1..], c);
      SplitAfterPiece(parts[0], Join(parts[1..], [c]), c);
      assert [parts[0]] + parts[1..] == parts;
    }
  }

  /** When the separator occurs, the first piece followed by the separator is a prefix. */
  lemma {:induction false} SplitFirstPiece(s: string, c: char)
    ensures c !in s ==> Split(s, c) == [s]
    ensures c in s ==> Split(s, c)[0] + [c] <= s && |Split(s, c)| >= 2
  {
    if c !in s {
      SplitNoSeparator(s, c);
    } else if s[0] != c {
      assert c in s[1..];
      SplitFirstPiece(s[1..], c);
    }
  }

  /** Python `s.split(c)[-1]`: the text after the last separator. */
  function LastPiece(s: string, c: char): (r: string)
    ensures c !in r
    ensures |r| <= |s| && s[|s| - |r|..] == r
  {
    SplitPiecesFree(s, c);
    var ps := Split(s, c);
    LastPieceIsSuffix(s, c);
    ps[|ps| - 1]
  }

  /** The last piece is a suffix of `s`, preceded by the separator unless it is all of `s`. */
  lemma LastPieceIsSuffix(s: string, c: char)
    ensures var ps := Split(s, c); var r := ps[|ps| - 1];
      |r| <= |s| && s[|s| - |r|..] == r && (|r| < |s| ==> s[|s| - |r| - 1] == c)
  {
    var ps := Split(s, c);
    JoinSplit(s, c);
    if |ps| >= 2 {
      var init := ps[..|ps| - 1];
      assert init + [ps[|ps| - 1]] == ps;
      JoinSnoc(init, ps[|ps| - 1], [c]);
    }
  }

  /** Whatever precedes the last separator, the text after it is the last piece. */
  lemma {:induction false} LastPieceAfterSeparator(a: string, b: string, c: char)
    requires c !in b
    ensures LastPiece(a + [c] + b, c) == b
    decreases |a|
  {
    var s := a + [c] + b;
    if a == [] {
      SplitAfterPiece(a, b, c);
      SplitNoSeparator(b, c);
    } else {
      var s' := a[1..] + [c] + b;
      assert s[1..] == s';
      LastPieceAfterSeparator(a[1..], b, c);
      var t := Split(s', c);
      SplitFirstPiece(s', c);
      assert c in s' by { assert s'[|a| - 1] == c; }
      if s[0] != c {
        assert Split(s, c) == [[s[0]] + t[0]] + t[1..];
      }
    }
  }

  // ---------------------------------------------------------------------------
  // Character-level rewriting

  /** Python `s.replace(pat, rep)` for one-character `pat` and `rep`. */
  function ReplaceChar(s: string, pat: char, rep: char): (r: string)
    ensures |r| == |s|
    ensures forall i :: 0 <= i < |s| ==> r[i] == if s[i] == pat then rep else s[i]
  {
    if s == [] then [] else [if s[0] == pat then rep else s[0]] + ReplaceChar(s[1..], pat, rep)
  }

  /** Python `s.replace(c, "")`. */
  function DeleteChar(s: string, c: char): (r: string)
    ensures c !in r
    ensures |r| <= |s|
    ensures forall x :: x in r <==> x in s && x != c
  {
    if s == [] then []
    else if s[0] == c then DeleteChar(s[1..], c)
    else [s[0]] + DeleteChar(s[1..], c)
  }

  /** Deleting a character distributes over concatenation. */
  lemma {:induction false} DeleteCharAppend(a: string, b: string, c: char)
    ensures DeleteChar(a + b, c) == DeleteChar(a, c) + DeleteChar(b, c)
  {
    if a == [] {
      assert a + b == b;
    } else {
      assert (a + b)[0] == a[0] && (a + b)[1..] == a[1..] + b;
      DeleteCharAppend(a[1..], b, c);
    }
  }

  /** On one character, deletion drops `c` and keeps anything else. */
  lemma DeleteCharOne(x: char, c: char)
    ensures DeleteChar([x], c) == if x == c then [] else [x]
  {
    assert [x][1..] == [];
  }

  /** Python `s.replace(pat, rep)` for a non-empty `pat`: leftmost, non-overlapping. */
  function ReplaceAll(s: string, pat: string, rep: string): string
    requires |pat| > 0
    decreases |s|
  {
    if |s| < |pat| then s
    else if s[..|pat|] == pat then rep + ReplaceAll(s[|pat|..], pat, rep)
    else [s[0]] + ReplaceAll(s[1..], pat, rep)
  }

  /** `replace` leaves a text without an occurrence of `pat` unchanged. */
  lemma {:induction false} ReplaceAllAbsent(s: string, pat: string, rep: string)
    requires |pat| > 0 && !Contains(s, pat)
    ensures ReplaceAll(s, pat, rep) == s
    decreases |s|
  {
    if |s| >= |pat| {
      ReplaceAllAbsent(s[1..], pat, rep);
    }
  }

  /** An occurrence right after a character foreign to `pat`, in a text with no earlier
      occurrence, is the only one replaced. */
  lemma {:induction false} ReplaceAllAtMark(s: string, mark: char, pat: string, rep: string)
    requires |pat| > 0 && mark !in pat && !Contains(s, pat)
    ensures ReplaceAll(s + [mark] + pat, pat, rep) == s + [mark] + rep
    decreases |s|
  {
    var t := s + [mark] + pat;
    if s == [] {
      assert t[..|pat|] != pat by { assert t[0] == mark; }
      assert t[1..] == pat;
      assert ReplaceAll(t, pat, rep) == [mark] + ReplaceAll(pat, pat, rep);
      ReplaceAllWhole(pat, rep);
    } else {
      assert t[..|pat|] != pat by {
        if |pat| <= |s| {
          assert t[..|pat|] == s[..|pat|];
        } else {
          assert t[|s|] == mark;
        }
      }
      assert !Contains(s[1..], pat);
      assert t[0] == s[0] && t[1..] == s[1..] + [mark] + pat;
      assert ReplaceAll(t, pat, rep) == [s[0]] + ReplaceAll(s[1..] + [mark] + pat, pat, rep);
      ReplaceAllAtMark(s[1..], mark, pat, rep);
      assert [s[0]] + (s[1..] + [mark] + rep) == s + [mark] + rep;
    }
  }

  /** The last path piece `stem` + `mark` + `pat` is renamed to `stem` + `mark` + `rep`. */
  lemma RenameAtMark(dir: string, stem: string, mark: char, pat: string, rep: string)
    requires |pat| > 0 && mark !in pat && !Contains(stem, pat)
    requires '/' !in stem && mark != '/' && '/' !in pat
    ensures ReplaceAll(LastPiece(dir + ['/'] + (stem + [mark] + pat), '/'), pat, rep) == stem + [mark] + rep
  {
    LastPieceAfterSeparator(dir, stem + [mark] + pat, '/');
    ReplaceAllAtMark(stem, mark, pat, rep);
  }

  /** An occurrence at the end of a text in which `pat`'s first character does not
      appear is the only one replaced. */
  lemma {:induction false} ReplaceAllAtEnd(s: string, pat: string, rep: string)
    requires |pat| > 0 && pat[0] !in s
    ensures ReplaceAll(s + pat, pat, rep) == s + rep
    decreases |s|
  {
    var t := s + pat;
    if s == [] {
      assert t == pat;
      ReplaceAllWhole(pat, rep);
    } else {
      assert t[..|pat|] != pat by { assert t[0] == s[0]; }
      assert t[1..] == s[1..] + pat;
      assert ReplaceAll(t, pat, rep) == [s[0]] + ReplaceAll(s[1..] + pat, pat, rep);
      ReplaceAllAtEnd(s[1..], pat, rep);
      assert [s[0]] + (s[1..] + rep) == s + rep;
    }
  }

  /** An occurrence that follows a text in which `pat`'s first character does not appear
      is the first one replaced, and replacement goes on after it. */
  lemma {:induction false} ReplaceAllAfterClean(s: string, pat: string, rep: string, t: string)
    requires |pat| > 0 && pat[0] !in s
    ensures ReplaceAll(s + pat + t, pat, rep) == s + rep + ReplaceAll(t, pat, rep)
    decreases |s|
  {
    var u := s + pat + t;
    if s == [] {
      assert u == pat + t;
      assert u[..|pat|] == pat && u[|pat|..] == t;
    } else {
      assert u[..|pat|] != pat by { assert u[0] == s[0]; }
      assert u[0] == s[0] && u[1..] == s[1..] + pat + t;
      assert ReplaceAll(u, pat, rep) == [s[0]] + ReplaceAll(s[1..] + pat + t, pat, rep);
      ReplaceAllAfterClean(s[1..], pat, rep, t);
      AppendAssoc([s[0]], s[1..] + rep, ReplaceAll(t, pat, rep));
      assert [s[0]] + (s[1..] + rep) == s + rep;
    }
  }

  /** A text in which `pat`'s first character does not appear holds no occurrence. */
  lemma {:induction false} NoOccurrenceWithoutFirst(s: string, pat: string)
    requires |pat| > 0 && pat[0] !in s
    ensures !Contains(s, pat)
    decreases |s|
  {
    if |s| >= |pat| {
      assert s[..|pat|] != pat by { assert s[0] != pat[0]; }
      NoOccurrenceWithoutFirst(s[1..], pat);
    }
  }

  /** Replacing the separator of a join replaces the join's separator, as long as the
      separator's first character occurs in no part. */
  lemma {:induction false} ReplaceAllJoin(parts: seq<string>, pat: string, rep: string)
    requires |pat| > 0
    requires forall p :: p in parts ==> pat[0] !in p
    ensures ReplaceAll(Join(parts, pat), pat, rep) == Join(parts, rep)
  {
    if |parts| == 0 {
    } else if |parts| == 1 {
      assert parts[0] in parts;
      NoOccurrenceWithoutFirst(parts[0], pat);
      ReplaceAllAbsent(parts[0], pat, rep);
    } else {
      assert parts[0] in parts;
      assert forall p :: p in parts[1..] ==> p in parts;
      ReplaceAllJoin(parts[1..], pat, rep);
      ReplaceAllAfterClean(parts[0], pat, rep, Join(parts[1..], pat));
    }
  }

  /** The pattern on its own becomes the replacement. */
  lemma ReplaceAllWhole(pat: string, rep: string)
    requires |pat| > 0
    ensures ReplaceAll(pat, pat, rep) == rep
  {
    assert pat[..|pat|] == pat && pat[|pat|..] == [];
    assert ReplaceAll(pat, pat, rep) == rep + ReplaceAll([], pat, rep);
  }

  /** A character absent from the text and from the replacement stays absent. */
  lemma {:induction false} ReplaceAllKeepsOut(s: string, pat: string, rep: string, c: char)
    requires |pat| > 0 && c !in s && c !in rep
    ensures c !in ReplaceAll(s, pat, rep)
    decreases |s|
  {
    if |s| >= |pat| {
      if s[..|pat|] == pat {
        assert c !in s[|pat|..];
        ReplaceAllKeepsOut(s[|pat|..], pat, rep, c);
      } else {
        assert c !in s[1..];
        ReplaceAllKeepsOut(s[1..], pat, rep, c);
      }
    }
  }

  /** `os.path.basename(path).replace(pat, rep)`, how the record scripts name their
      output files: the name comes from the last `/`-piece, so it holds no `/`. */
  function RenameBase(path: string, pat: string, rep: string): (r: string)
    requires |pat| > 0 && '/' !in rep
    ensures '/' !in r
  {
    var base := LastPiece(path, '/');
    ReplaceAllKeepsOut(base, pat, rep, '/');
    ReplaceAll(base, pat, rep)
  }

  /** A base name without an occurrence of `pat` is kept as it is. */
  lemma RenameBaseUnchanged(path: string, pat: string, rep: string)
    requires |pat| > 0 && '/' !in rep && !Contains(LastPiece(path, '/'), pat)
    ensures RenameBase(path, pat, rep) == LastPiece(path, '/')
  {
    ReplaceAllAbsent(LastPiece(path, '/'), pat, rep);
  }

  /** A replacement no longer than `pat` never lengthens the text, and a non-empty one
      keeps a non-empty text non-empty. */
  lemma {:induction false} ReplaceAllLength(s: string, pat: string, rep: string)
    requires |pat| > 0 && |rep| <= |pat|
    ensures |ReplaceAll(s, pat, rep)| <= |s|
    ensures |rep| > 0 && |s| > 0 ==> |ReplaceAll(s, pat, rep)| > 0
    decreases |s|
  {
    if |s| >= |pat| {
      if s[..|pat|] == pat {
        ReplaceAllLength(s[|pat|..], pat, rep);
      } else {
        ReplaceAllLength(s[1..], pat, rep);
      }
    }
  }

  /** Python `s[n:]` for `n >= 0`. */
  function Drop(s: string, n: nat): (r: string)
    ensures |r| == if |s| <= n then 0 else |s| - n
    ensures forall i :: 0 <= i < |r| ==> r[i] == s[n + i]
  {
    if |s| <= n then "" else s[n..]
  }

  // ---------------------------------------------------------------------------
  // Decimal text

  predicate IsDigit(c: char) { '0' <= c <= '9' }

  /** ASCII decimal text: what `isnumeric()` accepts and `int()` reads in this model. */
  predicate IsDigits(s: string) { forall i :: 0 <= i < |s| ==> IsDigit(s[i]) }

  /** Python `int(s)` on decimal text. */
  function DigitsValue(s: string): nat
    requires IsDigits(s)
  {
    if s == [] then 0
    else DigitsValue(s[..|s| - 1]) * 10 + (s[|s| - 1] as int - '0' as int)
  }

  function DigitChar(d: nat): (c: char)
    requires d < 10
    ensures IsDigit(c) && c as int - '0' as int == d
  {
    ('0' as int + d) as char
  }

  /** Python `str(n)` for a natural number. */
  function NatToDecimal(n: nat): (r: string)
    ensures |r| >= 1 && IsDigits(r)
  {
    if n < 10 then [DigitChar(n)] else NatToDecimal(n / 10) + [DigitChar(n % 10)]
  }

  /** `int(str(n)) == n`. */
  lemma {:induction false} DecimalRoundTrip(n: nat)
    ensures DigitsValue(NatToDecimal(n)) == n
  {
    if n >= 10 {
      var s := NatToDecimal(n);
      assert s[..|s| - 1] == NatToDecimal(n / 10);
      DecimalRoundTrip(n / 10);
    }
  }

  /** Python `str(i)` for any integer. */
  function IntToDecimal(i: int): (r: string)
    ensures |r| >= 1
    ensures i >= 0 <==> IsDigits(r)
  {
    if i < 0 then
      var r := "-" + NatToDecimal(-i);
      assert !IsDigit(r[0]);
      r
    else NatToDecimal(i)
  }

  // ---------------------------------------------------------------------------
  // Fixed-frame strings: `prefix + x + suffix` and its inverse

  function StripFrame(s: string, prefix: string, suffix: string): (r: Option<string>)
    ensures r.Some? ==> s == prefix + r.value + suffix
  {
    if |prefix| + |suffix| <= |s| && s[..|prefix|] == prefix && s[|s| - |suffix|..] == suffix
    then
      var x := s[|prefix|..|s| - |suffix|];
      assert s == s[..|prefix|] + x + s[|s| - |suffix|..];
      Some(x)
    else None
  }

  /** Stripping the fixed frame off a framed text recovers the framed part. */
  lemma FramedRecovers(prefix: string, x: string, suffix: string)
    ensures StripFrame(prefix + x + suffix, prefix, suffix) == Some(x)
  {
    var s := prefix + x + suffix;
    assert s[..|prefix|] == prefix;
    assert s[|s| - |suffix|..] == suffix;
    assert s[|prefix|..|s| - |suffix|] == x;
  }
}

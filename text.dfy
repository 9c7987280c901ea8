/** The JavaScript string operations the frontend uses: `trim`, `includes`,
    `Array.prototype.join` and `substring`. Strings are sequences of chars. */
module Text {
  import opened Lists

  /** The characters `String.prototype.trim` removes: the WhiteSpace and
      LineTerminator code points of section 12.2 and 12.3 of ECMA-262. */
  predicate IsWhitespace(c: char) {
    c == ' ' || c == '\t' || c == '\n' || c == '\r' || c == '\U{000B}' || c == '\U{000C}'
    || c == '\U{00A0}' || c == '\U{1680}' || ('\U{2000}' <= c <= '\U{200A}')
    || c == '\U{2028}' || c == '\U{2029}' || c == '\U{202F}' || c == '\U{205F}'
    || c == '\U{3000}' || c == '\U{FEFF}'
  }

  predicate AllWhitespace(s: string) {
    forall k :: 0 <= k < |s| ==> IsWhitespace(s[k])
  }

  /** The end of the run of whitespace that starts at index `k`. */
  function LeadEnd(s: string, k: nat): (r: nat)
    requires k <= |s|
    ensures k <= r <= |s|
    ensures forall m :: k <= m < r ==> IsWhitespace(s[m])
    ensures r < |s| ==> !IsWhitespace(s[r])
    decreases |s| - k
  {
    if k < |s| && IsWhitespace(s[k]) then LeadEnd(s, k + 1) else k
  }

  /** The start of the run of whitespace that ends at index `j`, looking no
      further back than `i`. */
  function TrailStart(s: string, i: nat, j: nat): (r: nat)
    requires i <= j <= |s|
    ensures i <= r <= j
    ensures forall m :: r <= m < j ==> IsWhitespace(s[m])
    ensures r > i ==> !IsWhitespace(s[r - 1])
    decreases j - i
  {
    if j > i && IsWhitespace(s[j - 1]) then TrailStart(s, i, j - 1) else j
  }

  /** `s.trim()`: the slice of `s` between its leading and its trailing
      whitespace. */
  function Trim(s: string): string {
    var i := LeadEnd(s, 0);
    s[i..TrailStart(s, i, |s|)]
  }

  /** The trimmed string is a slice of `s` with only whitespace around it,
      and it neither starts nor ends with whitespace. */
  lemma TrimSpec(s: string)
    ensures var r := Trim(s);
            (exists i :: 0 <= i <= |s| - |r| && r == s[i..i + |r|]
                         && AllWhitespace(s[..i]) && AllWhitespace(s[i + |r|..]))
            && (r != [] ==> !IsWhitespace(r[0]) && !IsWhitespace(r[|r| - 1]))
  {
    var i := LeadEnd(s, 0);
    var j := TrailStart(s, i, |s|);
    assert Trim(s) == s[i..j];
    assert AllWhitespace(s[..i]);
    assert AllWhitespace(s[j..]);
  }

  /** A string trims to the empty string exactly when it is all whitespace,
      which is when JavaScript treats `s.trim()` as false. */
  lemma TrimEmpty(s: string)
    ensures Trim(s) == [] <==> AllWhitespace(s)
  {
    var i := LeadEnd(s, 0);
    var j := TrailStart(s, i, |s|);
    if Trim(s) == [] {
      assert i == j;
    }
  }

  /** Trimming twice is trimming once. */
  lemma TrimIdempotent(s: string)
    ensures Trim(Trim(s)) == Trim(s)
  {
    var r := Trim(s);
    TrimSpec(s);
    if r != [] {
      assert LeadEnd(r, 0) == 0;
      assert TrailStart(r, 0, |r|) == |r|;
      assert r[0..|r|] == r;
    }
  }

  /** `sub` occurs in `s` starting at index `i`. */
  predicate OccursAt(s: string, sub: string, i: int) {
    0 <= i <= |s| - |sub| && s[i..i + |sub|] == sub
  }

  /** `s.includes(sub)`: `sub` occurs in `s` as a contiguous slice. */
  function Includes(s: string, sub: string): (b: bool)
    ensures b <==> exists i :: OccursAt(s, sub, i)
  {
    if sub <= s then
      assert OccursAt(s, sub, 0);
      true
    else if s == [] then false
    else
      var b := Includes(s[1..], sub);
      assert b ==> exists i :: OccursAt(s, sub, i) by {
        if b {
          var i :| OccursAt(s[1..], sub, i);
          assert s[i + 1..i + 1 + |sub|] == sub;
          assert OccursAt(s, sub, i + 1);
        }
      }
      assert (exists i :: OccursAt(s, sub, i)) ==> b by {
        if exists i :: OccursAt(s, sub, i) {
          var i :| OccursAt(s, sub, i);
          assert i != 0;
          assert s[1..][i - 1..i - 1 + |sub|] == sub;
          assert OccursAt(s[1..], sub, i - 1);
        }
      }
      b
  }

  /** `parts.join(sep)`. */
  function Join(parts: seq<string>, sep: string): string {
    if |parts| == 0 then ""
    else if |parts| == 1 then parts[0]
    else parts[0] + sep + Join(parts[1..], sep)
  }

  /** `s.split(sep)` for a one-character separator: the pieces between the
      occurrences of `sep`; never empty. The partner of `Join`. */
  function Split(s: string, sep: char): (r: seq<string>)
    ensures |r| >= 1
  {
    if s == [] then [""]
    else if s[0] == sep then [""] + Split(s[1..], sep)
    else
      var rest := Split(s[1..], sep);
      [[s[0]] + rest[0]] + rest[1..]
  }

  lemma {:induction false} SplitNoSeparator(p: string, sep: char)
    requires sep !in p
    ensures Split(p, sep) == [p]
  {
    if p != [] {
      SplitNoSeparator(p[1..], sep);
      assert [p[0]] + p[1..] == p;
    }
  }

  lemma {:induction false} SplitAfterPiece(p: string, sep: char, t: string)
    requires sep !in p
    ensures Split(p + [sep] + t, sep) == [p] + Split(t, sep)
  {
    if p == [] {
      assert p + [sep] + t == [sep] + t;
      assert ([sep] + t)[1..] == t;
    } else {
      var s := p + [sep] + t;
      assert s[0] == p[0] && s[1..] == p[1..] + [sep] + t;
      SplitAfterPiece(p[1..], sep, t);
      assert [p[0]] + p[1..] == p;
    }
  }

  /** Splitting a join recovers the pieces, when there is at least one piece
      and no piece holds the separator. */
  lemma {:induction false} SplitJoin(parts: seq<string>, sep: char)
    requires |parts| >= 1
    requires forall i :: 0 <= i < |parts| ==> sep !in parts[i]
    ensures Split(Join(parts, [sep]), sep) == parts
  {
    if |parts| == 1 {
      SplitNoSeparator(parts[0], sep);
    } else {
      var rest := parts[1..];
      forall i | 0 <= i < |rest| ensures sep !in rest[i] {
        assert rest[i] == parts[i + 1];
      }
      SplitJoin(rest, sep);
      assert Join(parts, [sep]) == parts[0] + [sep] + Join(rest, [sep]);
      SplitAfterPiece(parts[0], sep, Join(rest, [sep]));
      assert [parts[0]] + rest == parts;
    }
  }

  /** `s.substring(0, 150) + '...'`: the preview the pages store as a note's
      summary. `substring` clamps its end to the length of the string. */
  function Preview(s: string): (r: string)
    ensures |r| == (if |s| < 150 then |s| else 150) + 3
    ensures r[..|r| - 3] <= s && r[|r| - 3..] == "..."
  {
    Take(s, 150) + "..."
  }
}

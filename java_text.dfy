/** The Java library string behaviour the machine relies on: `List.toString`, `String.split`,
    `String.trim` and `StringUtils.isBlank`. */
module JavaText {
  import opened Sequences

  /** The elements of `xs` with `sep` between neighbours. */
  function Join(xs: seq<string>, sep: string): string
    decreases |xs|
  {
    if xs == [] then ""
    else if |xs| == 1 then xs[0]
    else xs[0] + sep + Join(xs[1..], sep)
  }

  /** Joining nothing gives the empty text; otherwise the text starts with the first element and
      ends with the last. */
  lemma {:induction false} JoinEnds(xs: seq<string>, sep: string)
    ensures xs == [] ==> Join(xs, sep) == ""
    ensures xs != [] ==> xs[0] <= Join(xs, sep) && EndsWith(Join(xs, sep), xs[|xs| - 1])
    decreases |xs|
  {
    if |xs| > 1 {
      JoinEnds(xs[1..], sep);
      var rest := Join(xs[1..], sep);
      var last := xs[|xs| - 1];
      assert xs[1..][|xs[1..]| - 1] == last;
      assert Join(xs, sep) == xs[0] + sep + rest;
      assert (xs[0] + sep + rest)[..|xs[0]|] == xs[0];
      assert (xs[0] + sep + rest)[|xs[0] + sep + rest| - |last|..] == rest[|rest| - |last|..];
    }
  }

  /** `AbstractCollection.toString` on a list of strings: `[a, b, c]`. */
  function ListToString(xs: seq<string>): (text: string)
    ensures |text| >= 2 && text[0] == '[' && text[|text| - 1] == ']'
  {
    "[" + Join(xs, ", ") + "]"
  }

  /** Every element of a joined list occurs in the joined text. */
  lemma {:induction false} JoinMentions(xs: seq<string>, sep: string, k: nat) returns (i: nat)
    requires k < |xs|
    ensures OccursAt(xs[k], Join(xs, sep), i)
    decreases k
  {
    if |xs| == 1 {
      i := 0;
    } else if k == 0 {
      i := 0;
      assert Join(xs, sep) == xs[0] + (sep + Join(xs[1..], sep));
    } else {
      var j := JoinMentions(xs[1..], sep, k - 1);
      i := |xs[0]| + |sep| + j;
      assert Join(xs, sep) == (xs[0] + sep) + Join(xs[1..], sep);
    }
  }

  /** Every element of a list is named in its `toString` text. */
  lemma ListToStringMentions(xs: seq<string>, k: nat) returns (i: nat)
    requires k < |xs|
    ensures OccursAt(xs[k], ListToString(xs), i)
  {
    var j := JoinMentions(xs, ", ", k);
    i := j + 1;
    assert ListToString(xs) == "[" + Join(xs, ", ") + "]";
  }

  /** Every field of `s` separated by `sep`, empty fields included (the split without the
      removal of trailing empty strings). Joining the fields back gives `s`. */
  function Split(s: string, sep: char): (fields: seq<string>)
    ensures |fields| >= 1
    decreases |s|
  {
    if s == [] then [""]
    else
      var rest := Split(s[1..], sep);
      if s[0] == sep then [""] + rest
      else [[s[0]] + rest[0]] + rest[1..]
  }

  /** No field contains the separator, and joining the fields with it gives back the string. */
  lemma {:induction false} SplitRoundTrip(s: string, sep: char)
    ensures forall k :: 0 <= k < |Split(s, sep)| ==> sep !in Split(s, sep)[k]
    ensures Join(Split(s, sep), [sep]) == s
    decreases |s|
  {
    if s != [] {
      var rest := Split(s[1..], sep);
      SplitRoundTrip(s[1..], sep);
      var fields := Split(s, sep);
      assert s == [s[0]] + s[1..];
      if s[0] == sep {
        assert fields == [""] + rest;
        JoinAfterEmpty(rest, [sep]);
        forall k | 0 <= k < |fields| ensures sep !in fields[k] {
          if k > 0 { assert fields[k] == rest[k - 1]; }
        }
      } else {
        assert fields == [[s[0]] + rest[0]] + rest[1..];
        JoinExtendsFirst([s[0]], rest, [sep]);
        forall k | 0 <= k < |fields| ensures sep !in fields[k] {
          if k > 0 { assert fields[k] == rest[k]; }
        }
      }
    }
  }

  /** An empty first element puts one separator in front of the rest. */
  lemma JoinAfterEmpty(xs: seq<string>, sep: string)
    requires xs != []
    ensures Join([""] + xs, sep) == sep + Join(xs, sep)
  {
    assert ([""] + xs)[1..] == xs;
  }

  /** Extending the first element extends the front of the joined text. */
  lemma JoinExtendsFirst(x: string, xs: seq<string>, sep: string)
    requires xs != []
    ensures Join([x + xs[0]] + xs[1..], sep) == x + Join(xs, sep)
  {
    var ys := [x + xs[0]] + xs[1..];
    if |xs| > 1 {
      assert ys[1..] == xs[1..];
      assert Join(ys, sep) == (x + xs[0]) + sep + Join(xs[1..], sep);
      assert Join(xs, sep) == xs[0] + sep + Join(xs[1..], sep);
    }
  }

  /** The fields with the empty strings at the end removed. */
  function DropTrailingEmpty(fields: seq<string>): (kept: seq<string>)
    ensures kept <= fields
    ensures kept == [] || kept[|kept| - 1] != ""
    ensures forall k :: |kept| <= k < |fields| ==> fields[k] == ""
    decreases |fields|
  {
    if fields != [] && fields[|fields| - 1] == "" then DropTrailingEmpty(fields[..|fields| - 1])
    else fields
  }

  /** `String.split` with a one-character pattern: the whole string when the separator does not
      occur; otherwise every field, less the empty ones at the end. */
  function JavaSplit(s: string, sep: char): (fields: seq<string>)
    ensures sep !in s ==> fields == [s]
    ensures sep in s ==> fields <= Split(s, sep) && (fields == [] || fields[|fields| - 1] != "")
    ensures sep in s ==> forall k :: |fields| <= k < |Split(s, sep)| ==> Split(s, sep)[k] == ""
  {
    if sep !in s then [s] else DropTrailingEmpty(Split(s, sep))
  }

  /** `String.trim` strips every character up to U+0020 from both ends. */
  predicate Strippable(c: char) {
    c <= ' '
  }

  /** Neither end of `w` is strippable: `w` is what trimming leaves. */
  predicate TrimmedEnds(w: string) {
    w == [] || (!Strippable(w[0]) && !Strippable(w[|w| - 1]))
  }

  /** `s` without its leading strippable characters. */
  function TrimStart(s: string): string
    decreases |s|
  {
    if s != [] && Strippable(s[0]) then TrimStart(s[1..]) else s
  }

  /** `TrimStart` drops a prefix made only of strippable characters and stops at the first
      character it cannot strip. */
  lemma {:induction false} TrimStartDropsPrefix(s: string)
    ensures |TrimStart(s)| <= |s| && TrimStart(s) == s[|s| - |TrimStart(s)|..]
    ensures TrimStart(s) == [] || !Strippable(TrimStart(s)[0])
    ensures forall k :: 0 <= k < |s| - |TrimStart(s)| ==> Strippable(s[k])
    decreases |s|
  {
    if s != [] && Strippable(s[0]) {
      TrimStartDropsPrefix(s[1..]);
    }
  }

  /** `s` without its trailing strippable characters. */
  function TrimEnd(s: string): string
    decreases |s|
  {
    if s != [] && Strippable(s[|s| - 1]) then TrimEnd(s[..|s| - 1]) else s
  }

  /** `TrimEnd` drops a suffix made only of strippable characters and stops at the last
      character it cannot strip. */
  lemma {:induction false} TrimEndDropsSuffix(s: string)
    ensures TrimEnd(s) <= s
    ensures TrimEnd(s) == [] || !Strippable(TrimEnd(s)[|TrimEnd(s)| - 1])
    ensures forall k :: |TrimEnd(s)| <= k < |s| ==> Strippable(s[k])
    decreases |s|
  {
    if s != [] && Strippable(s[|s| - 1]) {
      TrimEndDropsSuffix(s[..|s| - 1]);
    }
  }

  /** `r` is `s` with a strippable prefix of length `i` and a strippable suffix removed. */
  ghost predicate StrippedAt(s: string, r: string, i: int) {
    && OccursAt(r, s, i)
    && (forall k :: 0 <= k < i ==> Strippable(s[k]))
    && (forall k :: i + |r| <= k < |s| ==> Strippable(s[k]))
  }

  /** `String.trim` (and `StringUtils.trim` on a non-null string). */
  function Trim(s: string): (r: string)
    ensures TrimmedEnds(r)
  {
    var t := TrimStart(s);
    var r := TrimEnd(t);
    TrimStartDropsPrefix(s);
    TrimEndDropsSuffix(t);
    assert r == [] || r[0] == t[0];
    r
  }

  /** Trimming removes only strippable characters, and only from the two ends. */
  lemma TrimStripsEnds(s: string)
    ensures StrippedAt(s, Trim(s), |s| - |TrimStart(s)|)
  {
    TrimStartDropsPrefix(s);
    TrimEndDropsSuffix(TrimStart(s));
    TrimEndOfSuffix(s, TrimStart(s), Trim(s));
  }

  /** Trimming the end of a start-trimmed suffix leaves a slice of the original string. */
  lemma TrimEndOfSuffix(s: string, t: string, r: string)
    requires |t| <= |s| && t == s[|s| - |t|..]
    requires t == [] || !Strippable(t[0])
    requires forall k :: 0 <= k < |s| - |t| ==> Strippable(s[k])
    requires r <= t
    requires r == [] || !Strippable(r[|r| - 1])
    requires forall k :: |r| <= k < |t| ==> Strippable(t[k])
    ensures StrippedAt(s, r, |s| - |t|)
  {
    var i := |s| - |t|;
    assert r == [] || r[0] == t[0];
    assert s[i..i + |r|] == r by {
      assert s[i..] == t;
      assert t[..|r|] == r;
    }
    forall k | i + |r| <= k < |s| ensures Strippable(s[k]) {
      assert s[k] == t[k - i];
    }
  }

  /** Trimming twice is trimming once. */
  lemma TrimIdempotent(s: string)
    ensures Trim(Trim(s)) == Trim(s)
  {
  }

  /** `Character.isWhitespace`: the ASCII separators and control characters it accepts, and the
      Unicode space, line and paragraph separators other than the non-breaking ones. */
  predicate IsWhitespace(c: char): (b: bool)
    ensures c == ' ' || c == '\t' || c == '\n' || c == '\r' ==> b
    ensures c == '\U{00A0}' || c == '\U{2007}' || c == '\U{202F}' || c == '\U{FEFF}' ==> !b
    ensures b ==> c <= ' ' || '\U{1680}' <= c <= '\U{3000}'
  {
    || ('\t' <= c <= '\r')
    || ('\U{1C}' <= c <= ' ')
    || c == '\U{1680}'
    || ('\U{2000}' <= c <= '\U{2006}')
    || ('\U{2008}' <= c <= '\U{200A}')
    || c == '\U{2028}' || c == '\U{2029}' || c == '\U{205F}' || c == '\U{3000}'
  }

  /** `StringUtils.isBlank` on a non-null string: empty or whitespace only. */
  predicate IsBlank(s: string): (b: bool)
    ensures s == [] ==> b
    ensures b ==> '\U{00A0}' !in s && '\U{0}' !in s
  {
    forall k :: 0 <= k < |s| ==> IsWhitespace(s[k])
  }
}

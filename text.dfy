/**
 * The string operations the command engine relies on, with Python's meaning:
 * `str.isspace`, `str.strip`, `str.split(sep)`, `sep.join(parts)`,
 * `str.replace(old, new)`, and the command-list splitting built from them.
 */
module Text {

  /** Python's `str.isspace` for a single character. */
  predicate IsSpace(c: char) {
    var n := c as int;
    (9 <= n <= 13) || (28 <= n <= 32) || n == 0x85 || n == 0xA0 || n == 0x1680 ||
    (0x2000 <= n <= 0x200A) || n == 0x2028 || n == 0x2029 || n == 0x202F ||
    n == 0x205F || n == 0x3000
  }

  predicate AllSpace(s: string) {
    forall k :: 0 <= k < |s| ==> IsSpace(s[k])
  }

  /** `sub` occurs in `s` starting at position `i`. */
  predicate OccursAt(s: string, sub: string, i: nat) {
    i + |sub| <= |s| && s[i..i + |sub|] == sub
  }

  /** Python's `sub in s`. */
  predicate Contains(s: string, sub: string) {
    exists i: nat | i <= |s| :: OccursAt(s, sub, i)
  }

  /** The first position at or after `i` that does not hold whitespace, or `|s|`. */
  function SkipSpace(s: string, i: nat): (r: nat)
    requires i <= |s|
    ensures i <= r <= |s|
    ensures forall k :: i <= k < r ==> IsSpace(s[k])
    ensures r < |s| ==> !IsSpace(s[r])
    decreases |s| - i
  {
    if i < |s| && IsSpace(s[i]) then SkipSpace(s, i + 1) else i
  }

  /** Where `s[lo..j]` ends once its trailing whitespace is cut away. */
  function TrimEnd(s: string, lo: nat, j: nat): (r: nat)
    requires lo <= j <= |s|
    ensures lo <= r <= j
    ensures forall k :: r <= k < j ==> IsSpace(s[k])
    ensures r > lo ==> !IsSpace(s[r - 1])
    decreases j
  {
    if j > lo && IsSpace(s[j - 1]) then TrimEnd(s, lo, j - 1) else j
  }

  /**
   * `str.strip()`: a slice of `s` with only whitespace cut away before and
   * after it, that neither starts nor ends with whitespace, and is empty
   * exactly when `s` is all whitespace.
   */
  function Strip(s: string): (r: string)
    ensures exists a, b :: 0 <= a <= b <= |s| && r == s[a..b] && AllSpace(s[..a]) && AllSpace(s[b..])
    ensures r == [] <==> AllSpace(s)
    ensures r != [] ==> !IsSpace(r[0]) && !IsSpace(r[|r| - 1])
    ensures forall c :: c in r ==> c in s
  {
    var start := SkipSpace(s, 0);
    var end := TrimEnd(s, start, |s|);
    assert start < |s| ==> end > start;
    var r := s[start..end];
    assert forall k :: 0 <= k < |r| ==> r[k] == s[start + k];
    assert AllSpace(s[..start]) by {
      forall k | 0 <= k < start ensures IsSpace(s[..start][k]) {
        assert s[..start][k] == s[k];
      }
    }
    assert AllSpace(s[end..]) by {
      forall k | 0 <= k < |s| - end ensures IsSpace(s[end..][k]) {
        assert s[end..][k] == s[end + k];
      }
    }
    r
  }

  /**
   * Stripping removes exactly the whitespace around the text: text that
   * neither starts nor ends with whitespace comes back out of any
   * whitespace wrapped around it.
   */
  lemma StripTrims(pre: string, x: string, post: string)
    requires AllSpace(pre) && AllSpace(post)
    requires x != [] ==> !IsSpace(x[0]) && !IsSpace(x[|x| - 1])
    ensures Strip(pre + x + post) == x
  {
    var s := pre + x + post;
    assert forall k :: 0 <= k < |pre| ==> s[k] == pre[k];
    assert forall k :: 0 <= k < |x| ==> s[|pre| + k] == x[k];
    assert forall k :: 0 <= k < |post| ==> s[|pre| + |x| + k] == post[k];
    if x == [] {
      assert AllSpace(s);
    } else {
      var start := SkipSpace(s, 0);
      assert start == |pre|;
      var end := TrimEnd(s, start, |s|);
      assert end == |pre| + |x|;
      assert s[start..end] == x;
    }
  }

  /** Text that neither starts nor ends with whitespace is left as it is. */
  lemma StripUnchanged(s: string)
    requires s != [] ==> !IsSpace(s[0]) && !IsSpace(s[|s| - 1])
    ensures Strip(s) == s
  {
    if s != [] {
      assert SkipSpace(s, 0) == 0;
      assert TrimEnd(s, 0, |s|) == |s|;
    }
  }

  /**
   * `str.split(sep)` continued from position where the current piece is `acc`:
   * scans left to right and cuts at each non-overlapping occurrence of `sep`.
   */
  function SplitFrom(s: string, sep: string, acc: string): (r: seq<string>)
    requires |sep| > 0
    ensures |r| >= 1
    decreases |s|
  {
    if |sep| <= |s| && s[..|sep|] == sep then [acc] + SplitFrom(s[|sep|..], sep, "")
    else if s == [] then [acc]
    else SplitFrom(s[1..], sep, acc + [s[0]])
  }

  /** `s.split(sep)` for a non-empty separator. */
  function Split(s: string, sep: string): seq<string>
    requires |sep| > 0
  {
    SplitFrom(s, sep, "")
  }

  /** `sep.join(parts)`. */
  function Join(parts: seq<string>, sep: string): string {
    if parts == [] then ""
    else if |parts| == 1 then parts[0]
    else parts[0] + sep + Join(parts[1..], sep)
  }

  /** `s.replace(old, new)` for a non-empty `old`: a left-to-right scan replacing non-overlapping occurrences. */
  function Replace(s: string, pat: string, repl: string): string
    requires |pat| > 0
    decreases |s|
  {
    if |pat| <= |s| && s[..|pat|] == pat then repl + Replace(s[|pat|..], pat, repl)
    else if s == [] then ""
    else [s[0]] + Replace(s[1..], pat, repl)
  }

  /**
   * Python's identity `s.replace(old, new) == new.join(s.split(old))`,
   * continued from a piece already holding `acc`.
   */
  lemma {:induction false} JoinSplitFrom(s: string, sep: string, repl: string, acc: string)
    requires |sep| > 0
    ensures Join(SplitFrom(s, sep, acc), repl) == acc + Replace(s, sep, repl)
    decreases |s|
  {
    if |sep| <= |s| && s[..|sep|] == sep {
      var rest := SplitFrom(s[|sep|..], sep, "");
      JoinSplitFrom(s[|sep|..], sep, repl, "");
      assert [acc] + rest != [] && |[acc] + rest| > 1;
      assert ([acc] + rest)[1..] == rest;
    } else if s == [] {
    } else {
      JoinSplitFrom(s[1..], sep, repl, acc + [s[0]]);
      assert acc + [s[0]] + Replace(s[1..], sep, repl) == acc + ([s[0]] + Replace(s[1..], sep, repl));
    }
  }

  lemma ReplaceIsJoinOfSplit(s: string, pat: string, repl: string)
    requires |pat| > 0
    ensures Replace(s, pat, repl) == Join(Split(s, pat), repl)
  {
    JoinSplitFrom(s, pat, repl, "");
  }

  /** Replacing a string by itself changes nothing. */
  lemma {:induction false} ReplaceBySelf(s: string, sep: string)
    requires |sep| > 0
    ensures Replace(s, sep, sep) == s
    decreases |s|
  {
    if |sep| <= |s| && s[..|sep|] == sep {
      ReplaceBySelf(s[|sep|..], sep);
      assert s == s[..|sep|] + s[|sep|..];
    } else if s == [] {
    } else {
      ReplaceBySelf(s[1..], sep);
      assert s == [s[0]] + s[1..];
    }
  }

  /** Joining the pieces of a split with the same separator gives back the original string. */
  lemma SplitJoinRoundTrip(s: string, sep: string)
    requires |sep| > 0
    ensures Join(Split(s, sep), sep) == s
  {
    JoinSplitFrom(s, sep, sep, "");
    ReplaceBySelf(s, sep);
  }

  /** Splitting on a single character leaves that character in no piece. */
  lemma {:induction false} SplitFromOmitsSeparator(s: string, c: char, acc: string)
    requires c !in acc
    ensures forall k :: 0 <= k < |SplitFrom(s, [c], acc)| ==> c !in SplitFrom(s, [c], acc)[k]
    decreases |s|
  {
    if 1 <= |s| && s[..1] == [c] {
      SplitFromOmitsSeparator(s[1..], c, "");
    } else if s == [] {
    } else {
      assert s[0] != c by { assert s[..1] == [s[0]]; }
      SplitFromOmitsSeparator(s[1..], c, acc + [s[0]]);
    }
  }

  /** A replacement whose pattern does not occur leaves the text unchanged. */
  lemma {:induction false} ReplaceAbsent(s: string, pat: string, repl: string)
    requires |pat| > 0 && !Contains(s, pat)
    ensures Replace(s, pat, repl) == s
    decreases |s|
  {
    if s != [] {
      assert !(|pat| <= |s| && s[..|pat|] == pat) by {
        assert !OccursAt(s, pat, 0);
        assert |pat| <= |s| ==> s[..|pat|] == s[0..0 + |pat|];
      }
      forall i: nat | i <= |s[1..]| && OccursAt(s[1..], pat, i) ensures OccursAt(s, pat, i + 1) {
        assert s[i + 1..i + 1 + |pat|] == s[1..][i..i + |pat|];
      }
      ReplaceAbsent(s[1..], pat, repl);
    }
  }

  /** Once the pattern occurs, the replacement text occurs in the result. */
  lemma {:induction false} ReplaceInserts(s: string, pat: string, repl: string)
    requires |pat| > 0 && Contains(s, pat)
    ensures Contains(Replace(s, pat, repl), repl)
    decreases |s|
  {
    if |pat| <= |s| && s[..|pat|] == pat {
      var r := Replace(s, pat, repl);
      assert OccursAt(r, repl, 0);
    } else {
      var i: nat :| i <= |s| && OccursAt(s, pat, i);
      assert i != 0 by { assert !OccursAt(s, pat, 0) by { assert s[..|pat|] == s[0..0 + |pat|]; } }
      assert s[1..][i - 1..i - 1 + |pat|] == s[i..i + |pat|];
      assert OccursAt(s[1..], pat, i - 1);
      ReplaceInserts(s[1..], pat, repl);
      var t := Replace(s[1..], pat, repl);
      var j: nat :| j <= |t| && OccursAt(t, repl, j);
      assert ([s[0]] + t)[j + 1..j + 1 + |repl|] == t[j..j + |repl|];
      assert OccursAt([s[0]] + t, repl, j + 1);
    }
  }


  /** The stripped, non-blank pieces, in order. */
  function NonBlank(pieces: seq<string>): (r: seq<string>)
    ensures forall k :: 0 <= k < |r| ==> r[k] != "" && !IsSpace(r[k][0]) && !IsSpace(r[k][|r[k]| - 1])
  {
    if pieces == [] then []
    else
      var t := Strip(pieces[0]);
      var rest := NonBlank(pieces[1..]);
      var head := if t == "" then [] else [t];
      var r := head + rest;
      assert forall k :: 0 <= k < |r| ==> r[k] == (if k < |head| then t else rest[k - |head|]);
      r
  }

  /** Nothing survives exactly when every piece is blank. */
  lemma {:induction false} NonBlankEmptyIff(pieces: seq<string>)
    ensures NonBlank(pieces) == [] <==> forall k :: 0 <= k < |pieces| ==> AllSpace(pieces[k])
  {
    if pieces != [] {
      NonBlankEmptyIff(pieces[1..]);
      assert forall k :: 1 <= k < |pieces| ==> pieces[k] == pieces[1..][k - 1];
    }
  }

  /** A character that no piece holds is in no stripped piece either. */
  lemma {:induction false} NonBlankAvoids(pieces: seq<string>, c: char)
    requires forall k :: 0 <= k < |pieces| ==> c !in pieces[k]
    ensures forall k :: 0 <= k < |NonBlank(pieces)| ==> c !in NonBlank(pieces)[k]
  {
    if pieces != [] {
      NonBlankAvoids(pieces[1..], c);
      var t := Strip(pieces[0]);
      assert c !in t by {
        forall k | 0 <= k < |t| ensures t[k] != c { assert t[k] in t; }
      }
    }
  }

  /**
   * A semicolon-joined command list as the engine reads it:
   * `[cmd.strip() for cmd in value.split(';') if cmd.strip()]`.
   */
  function SplitCommands(value: string): (r: seq<string>)
    ensures forall k :: 0 <= k < |r| ==>
      r[k] != "" && ';' !in r[k] && !IsSpace(r[k][0]) && !IsSpace(r[k][|r[k]| - 1])
  {
    var pieces := Split(value, ";");
    SplitFromOmitsSeparator(value, ';', "");
    NonBlankAvoids(pieces, ';');
    NonBlank(pieces)
  }

  /** A character that a command list may consist of without naming any command. */
  predicate Blank(c: char) {
    c == ';' || IsSpace(c)
  }

  predicate AllBlank(s: string) {
    forall k :: 0 <= k < |s| ==> Blank(s[k])
  }

  lemma BlankConcat(a: string, b: string)
    ensures AllBlank(a + b) <==> AllBlank(a) && AllBlank(b)
  {
    assert forall k :: 0 <= k < |a| ==> (a + b)[k] == a[k];
    assert forall k :: 0 <= k < |b| ==> (a + b)[|a| + k] == b[k];
  }

  lemma {:induction false} JoinBlank(parts: seq<string>)
    requires forall k :: 0 <= k < |parts| ==> ';' !in parts[k]
    ensures AllBlank(Join(parts, ";")) <==> forall k :: 0 <= k < |parts| ==> AllSpace(parts[k])
  {
    if parts != [] {
      var p := parts[0];
      assert AllBlank(p) <==> AllSpace(p) by {
        assert ';' !in p;
        assert forall k :: 0 <= k < |p| ==> p[k] != ';' by {
          forall k | 0 <= k < |p| ensures p[k] != ';' { assert p[k] in p; }
        }
      }
      assert forall k :: 1 <= k < |parts| ==> parts[k] == parts[1..][k - 1];
      if |parts| > 1 {
        JoinBlank(parts[1..]);
        BlankConcat(p, ";");
        BlankConcat(p + ";", Join(parts[1..], ";"));
      }
    }
  }

  /**
   * A command list yields no command exactly when it consists only of
   * semicolons and whitespace (an empty value included).
   */
  lemma SplitCommandsEmptyIff(value: string)
    ensures SplitCommands(value) == [] <==> AllBlank(value)
  {
    var pieces := Split(value, ";");
    SplitJoinRoundTrip(value, ";");
    SplitFromOmitsSeparator(value, ';', "");
    JoinBlank(pieces);
    NonBlankEmptyIff(pieces);
  }
  /** What occurs in a suffix of `s` occurs in `s`. */
  lemma ContainsInSuffix(s: string, offset: nat, sub: string)
    requires offset <= |s| && Contains(s[offset..], sub)
    ensures Contains(s, sub)
  {
    var i: nat :| i <= |s[offset..]| && OccursAt(s[offset..], sub, i);
    assert s[offset + i..offset + i + |sub|] == s[offset..][i..i + |sub|];
    assert OccursAt(s, sub, offset + i);
  }

  /** A command as the splitting leaves it: not empty, no separator, no surrounding whitespace. */
  predicate Clean(cmd: string) {
    cmd != "" && ';' !in cmd && !IsSpace(cmd[0]) && !IsSpace(cmd[|cmd| - 1])
  }

  lemma {:induction false} SplitFromPlain(p: string, acc: string)
    requires ';' !in p
    ensures SplitFrom(p, ";", acc) == [acc + p]
    decreases |p|
  {
    if p == [] {
      assert acc + p == acc;
    } else {
      assert p[0] in p;
      assert p[..1] != ";";
      assert forall c :: c in p[1..] ==> c in p;
      SplitFromPlain(p[1..], acc + [p[0]]);
      assert acc + [p[0]] + p[1..] == acc + p;
    }
  }

  lemma {:induction false} SplitFromJoined(p: string, rest: string, acc: string)
    requires ';' !in p
    ensures SplitFrom(p + ";" + rest, ";", acc) == [acc + p] + SplitFrom(rest, ";", "")
    decreases |p|
  {
    var s := p + ";" + rest;
    if p == [] {
      assert s[..1] == ";" && s[1..] == rest;
      assert acc + p == acc;
    } else {
      assert p[0] in p;
      assert s[..1] != ";" by { assert s[0] == p[0]; }
      assert s[1..] == p[1..] + ";" + rest;
      assert forall c :: c in p[1..] ==> c in p;
      SplitFromJoined(p[1..], rest, acc + [p[0]]);
      assert acc + [p[0]] + p[1..] == acc + p;
    }
  }

  /** Splitting a non-empty list joined with `;` gives the list back when no element holds a `;`. */
  lemma {:induction false} SplitJoined(parts: seq<string>)
    requires parts != [] && forall k :: 0 <= k < |parts| ==> ';' !in parts[k]
    ensures Split(Join(parts, ";"), ";") == parts
  {
    if |parts| == 1 {
      SplitFromPlain(parts[0], "");
      assert "" + parts[0] == parts[0];
    } else {
      SplitFromJoined(parts[0], Join(parts[1..], ";"), "");
      SplitJoined(parts[1..]);
      assert "" + parts[0] == parts[0];
      assert parts == [parts[0]] + parts[1..];
    }
  }

  lemma {:induction false} NonBlankClean(parts: seq<string>)
    requires forall k :: 0 <= k < |parts| ==> Clean(parts[k])
    ensures NonBlank(parts) == parts
  {
    if parts != [] {
      StripUnchanged(parts[0]);
      NonBlankClean(parts[1..]);
      assert parts == [parts[0]] + parts[1..];
    }
  }

  /**
   * Splitting undoes joining: a non-empty list of clean commands joined with
   * `;` is read back as the same list.
   */
  lemma SplitCommandsRoundTrip(cmds: seq<string>)
    requires cmds != [] && forall k :: 0 <= k < |cmds| ==> Clean(cmds[k])
    ensures SplitCommands(Join(cmds, ";")) == cmds
  {
    SplitJoined(cmds);
    NonBlankClean(cmds);
  }

  /** Every command the splitting yields is clean, so joining and splitting again changes nothing. */
  lemma SplitCommandsIdempotent(value: string)
    ensures SplitCommands(Join(SplitCommands(value), ";")) == SplitCommands(value)
  {
    SplitCommandsEmptyIff(value);
    if AllBlank(value) {
      SplitCommandsEmptyIff("");
    } else {
      SplitCommandsRoundTrip(SplitCommands(value));
    }
  }

  /** The stripped pieces in order, the blank ones dropped: the first piece, then the rest. */
  lemma NonBlankCons(pieces: seq<string>)
    requires pieces != []
    ensures NonBlank(pieces) ==
      (if Strip(pieces[0]) == [] then [] else [Strip(pieces[0])]) + NonBlank(pieces[1..])
  {
  }

  /**
   * The commands of a list joined with `;` are its segments, each stripped,
   * the blank ones dropped, in order.
   */
  lemma SplitCommandsOfSegments(parts: seq<string>)
    requires parts != [] && forall k :: 0 <= k < |parts| ==> ';' !in parts[k]
    ensures SplitCommands(Join(parts, ";")) == NonBlank(parts)
  {
    SplitJoined(parts);
  }

  lemma PaddedWithoutSeparator(x: string, w: string)
    requires ';' !in x && AllSpace(w)
    ensures ';' !in x + w && ';' !in w + x
  {
    assert forall k :: 0 <= k < |w| ==> w[k] != ';';
  }

  lemma StripPadded(x: string, y: string, z: string, w1: string, w2: string)
    requires Clean(x) && Clean(y) && Clean(z) && AllSpace(w1) && AllSpace(w2)
    ensures Strip(x) == x && Strip(y + w1) == y && Strip(w2 + z) == z && Strip("") == ""
  {
    assert "" + x + "" == x && "" + y + w1 == y + w1 && w2 + z + "" == w2 + z;
    assert AllSpace("");
    StripTrims("", x, "");
    StripTrims("", y, w1);
    StripTrims(w2, z, "");
  }

  lemma NonBlankPadded(x: string, y: string, z: string, w1: string, w2: string)
    requires Clean(x) && Clean(y) && Clean(z) && AllSpace(w1) && AllSpace(w2)
    ensures NonBlank([x, y + w1, w2 + z, ""]) == [x, y, z]
  {
    var p0 := [x, y + w1, w2 + z, ""];
    var p1 := p0[1..];
    var p2 := p1[1..];
    var p3 := p2[1..];
    assert p1 == [y + w1, w2 + z, ""] && p2 == [w2 + z, ""] && p3 == [""] && p3[1..] == [];
    assert [] + [z] == [z] && [y] + [z] == [y, z] && [x] + [y, z] == [x, y, z];
    StripPadded(x, y, z, w1, w2);
    NonBlankCons(p3);
    assert NonBlank(p3) == [];
    NonBlankCons(p2);
    assert NonBlank(p2) == [z];
    NonBlankCons(p1);
    assert NonBlank(p1) == [y, z];
    NonBlankCons(p0);
  }

  /**
   * Whitespace around a command and an empty segment after a trailing `;`
   * are dropped: `x;y <ws>;<ws> z;` names the commands `x`, `y`, `z`.
   */
  lemma SplitCommandsStrips(x: string, y: string, z: string, w1: string, w2: string)
    requires Clean(x) && Clean(y) && Clean(z) && AllSpace(w1) && AllSpace(w2)
    ensures SplitCommands(x + ";" + y + w1 + ";" + w2 + z + ";") == [x, y, z]
  {
    var parts := [x, y + w1, w2 + z, ""];
    assert Join(parts[3..], ";") == "";
    assert Join(parts[2..], ";") == w2 + z + ";" + "";
    assert Join(parts[1..], ";") == y + w1 + ";" + (w2 + z + ";");
    assert x + ";" + y + w1 + ";" + w2 + z + ";" == Join(parts, ";");
    PaddedWithoutSeparator(y, w1);
    PaddedWithoutSeparator(z, w2);
    SplitCommandsOfSegments(parts);
    NonBlankPadded(x, y, z, w1, w2);
  }

  /** `"a;b ; c;"` names the three commands `a`, `b` and `c`. */
  lemma SplitCommandsExample()
    ensures SplitCommands("a;b ; c;") == ["a", "b", "c"]
  {
    SplitCommandsStrips("a", "b", "c", " ", " ");
    assert "a" + ";" + "b" + " " + ";" + " " + "c" + ";" == "a;b ; c;";
  }
}

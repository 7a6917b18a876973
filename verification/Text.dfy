/**
  The string operations of the source language's standard library that names
  and paths are built from, on ASCII strings, with the algebra of splitting
  and joining.
*/
module Text {
  predicate IsSpace(c: char) {
    c == ' ' || '\t' <= c <= '\r'
  }

  function LowerChar(c: char): char {
    if 'A' <= c <= 'Z' then (c as int + 32) as char else c
  }

  function ToLower(s: string): string {
    if s == "" then "" else [LowerChar(s[0])] + ToLower(s[1..])
  }

  function TrimLeft(s: string): string {
    if s != "" && IsSpace(s[0]) then TrimLeft(s[1..]) else s
  }

  function TrimRight(s: string): string {
    if s != "" && IsSpace(s[|s| - 1]) then TrimRight(s[..|s| - 1]) else s
  }

  function TrimSpace(s: string): string {
    TrimRight(TrimLeft(s))
  }

  predicate HasSuffix(s: string, suffix: string) {
    |suffix| <= |s| && s[|s| - |suffix|..] == suffix
  }

  function TrimSuffix(s: string, suffix: string): string {
    if HasSuffix(s, suffix) then s[..|s| - |suffix|] else s
  }

  function Split(s: string, sep: char): (parts: seq<string>)
    ensures |parts| >= 1
    ensures forall p :: p in parts ==> sep !in p
  {
    if s == "" then [""]
    else
      var rest := Split(s[1..], sep);
      if s[0] == sep then [""] + rest else [[s[0]] + rest[0]] + rest[1..]
  }

  function Join(parts: seq<string>, sep: char): string {
    if parts == [] then ""
    else if |parts| == 1 then parts[0]
    else parts[0] + [sep] + Join(parts[1..], sep)
  }

  lemma {:induction false} JoinAppend(a: seq<string>, b: seq<string>, sep: char)
    requires a != [] && b != []
    ensures Join(a + b, sep) == Join(a, sep) + [sep] + Join(b, sep)
  {
    assert (a + b)[0] == a[0] && (a + b)[1..] == a[1..] + b;
    if |a| == 1 {
      assert a[1..] + b == b;
    } else {
      JoinAppend(a[1..], b, sep);
    }
  }

  lemma {:induction false} JoinSplit(s: string, sep: char)
    ensures Join(Split(s, sep), sep) == s
  {
    if s != "" {
      var rest := Split(s[1..], sep);
      JoinSplit(s[1..], sep);
      if s[0] == sep {
        JoinAppend([""], rest, sep);
      } else if |rest| > 1 {
        JoinAppend([rest[0]], rest[1..], sep);
        JoinAppend([[s[0]] + rest[0]], rest[1..], sep);
        assert [rest[0]] + rest[1..] == rest;
      } else {
        assert rest == [rest[0]];
      }
    }
  }

  lemma SplitCons(c: char, rest: string, sep: char)
    ensures Split([c] + rest, sep) ==
      var below := Split(rest, sep); if c == sep then [""] + below else [[c] + below[0]] + below[1..]
  {
    assert ([c] + rest)[1..] == rest;
  }

  lemma SplitNothing(sep: char)
    ensures Split("", sep) == [""]
  {
  }
  lemma {:induction false} SplitNoSeparator(s: string, sep: char)
    requires sep !in s
    ensures Split(s, sep) == [s]
  {
    if s != "" {
      SplitNoSeparator(s[1..], sep);
      assert [s[0]] + s[1..] == s;
    }
  }

  lemma {:induction false} SplitAtSeparator(a: string, b: string, sep: char)
    ensures Split(a + [sep] + b, sep) == Split(a, sep) + Split(b, sep)
  {
    hide Split;
    if a == "" {
      assert a + [sep] + b == [sep] + b && Split("", sep) == [""] by {
        SplitNothing(sep);
      }
      SplitCons(sep, b, sep);
    } else {
      var c, rest := a[0], a[1..];
      assert a == [c] + rest && a + [sep] + b == [c] + (rest + [sep] + b);
      SplitAtSeparator(rest, b, sep);
      SplitCons(c, rest, sep);
      SplitCons(c, rest + [sep] + b, sep);
    }
  }

  lemma {:induction false} SplitJoin(parts: seq<string>, sep: char)
    requires parts != []
    requires forall p :: p in parts ==> sep !in p
    ensures Split(Join(parts, sep), sep) == parts
  {
    SplitNoSeparator(parts[0], sep);
    if |parts| == 1 {
      assert parts == [parts[0]];
    } else {
      SplitJoin(parts[1..], sep);
      SplitAtSeparator(parts[0], Join(parts[1..], sep), sep);
      assert parts == [parts[0]] + parts[1..];
    }
  }

  lemma TrimSpaceFixed(s: string)
    requires s == "" || (!IsSpace(s[0]) && !IsSpace(s[|s| - 1]))
    ensures TrimSpace(s) == s
  {
  }

  lemma {:induction false} TrimRightEnds(s: string)
    ensures TrimRight(s) == "" || !IsSpace(TrimRight(s)[|TrimRight(s)| - 1])
    ensures TrimRight(s) <= s
  {
    if s != "" && IsSpace(s[|s| - 1]) {
      TrimRightEnds(s[..|s| - 1]);
    }
  }

  lemma {:induction false} TrimLeftEnds(s: string)
    ensures TrimLeft(s) == "" || !IsSpace(TrimLeft(s)[0])
  {
    if s != "" && IsSpace(s[0]) {
      TrimLeftEnds(s[1..]);
    }
  }

  lemma TrimSpaceEnds(s: string)
    ensures var t := TrimSpace(s); t == "" || (!IsSpace(t[0]) && !IsSpace(t[|t| - 1]))
  {
    TrimLeftEnds(s);
    TrimRightEnds(TrimLeft(s));
  }

  lemma {:induction false} ToLowerAt(s: string)
    ensures |ToLower(s)| == |s|
    ensures forall i :: 0 <= i < |s| ==> ToLower(s)[i] == LowerChar(s[i])
  {
    if s != "" {
      ToLowerAt(s[1..]);
    }
  }

  lemma ToLowerFixed(s: string)
    requires forall c :: c in s ==> LowerChar(c) == c
    ensures ToLower(s) == s
  {
    ToLowerAt(s);
  }

  // ----- what the operations mean, character by character -----

  /** Space, by its ASCII codes: blank, and tab to carriage return. */
  ghost predicate Blank(c: char) {
    c as int == 32 || 9 <= c as int <= 13
  }

  /** The second string is the first in small letters. */
  ghost predicate InSmallLetters(s: string, t: string) {
    && |s| == |t|
    && forall i :: 0 <= i < |s| ==>
         t[i] as int == if 65 <= s[i] as int <= 90 then s[i] as int + 32 else s[i] as int
  }

  /** The core stands in the string at the given place, with nothing but space around. */
  ghost predicate BlankAround(s: string, core: string, at: nat) {
    && at + |core| <= |s|
    && s[at..at + |core|] == core
    && forall k :: 0 <= k < |s| && (k < at || at + |core| <= k) ==> Blank(s[k])
  }

  ghost predicate BlankEnds(s: string) {
    s != "" && (Blank(s[0]) || Blank(s[|s| - 1]))
  }

  lemma ToLowerMeans(s: string, t: string)
    ensures t == ToLower(s) <==> InSmallLetters(s, t)
  {
    ToLowerAt(s);
    if InSmallLetters(s, t) {
      forall i | 0 <= i < |s| ensures t[i] == ToLower(s)[i] {}
    }
  }

  lemma {:induction false} TrimRightPlace(s: string)
    ensures BlankAround(s, TrimRight(s), 0)
  {
    if s != "" && IsSpace(s[|s| - 1]) {
      TrimRightPlace(s[..|s| - 1]);
    }
  }

  lemma {:induction false} TrimLeftPlace(s: string) returns (at: nat)
    ensures at + |TrimLeft(s)| == |s| && BlankAround(s, TrimLeft(s), at)
  {
    if s != "" && IsSpace(s[0]) {
      var rest := TrimLeftPlace(s[1..]);
      at := rest + 1;
      assert s[at..] == s[1..][rest..];
      forall k | 0 <= k < at ensures Blank(s[k]) {
        assert k > 0 ==> s[k] == s[1..][k - 1];
      }
    } else {
      at := 0;
    }
  }

  lemma TrimSpacePlace(s: string) returns (at: nat)
    ensures BlankAround(s, TrimSpace(s), at)
  {
    var left := TrimLeft(s);
    at := TrimLeftPlace(s);
    TrimRightPlace(left);
    assert s[at..] == left;
    forall k | at + |TrimSpace(s)| <= k < |s| ensures Blank(s[k]) {
      assert s[k] == left[k - at];
    }
    assert s[at..at + |TrimSpace(s)|] == left[..|TrimSpace(s)|];
  }

  lemma SameCore(s: string, a: string, i: nat, b: string, j: nat)
    requires BlankAround(s, a, i) && BlankAround(s, b, j) && !BlankEnds(a) && !BlankEnds(b)
    ensures a == b
  {
    if a != "" {
      assert a[0] == s[i] && a[|a| - 1] == s[i + |a| - 1];
    }
    if b != "" {
      assert b[0] == s[j] && b[|b| - 1] == s[j + |b| - 1];
    }
  }

  /** Trimming yields the one part of a string that has space around it and none at its ends. */
  lemma TrimSpaceMeans(s: string, core: string)
    ensures core == TrimSpace(s) <==> !BlankEnds(core) && exists at :: BlankAround(s, core, at)
  {
    hide TrimSpace;
    TrimSpaceEnds(s);
    var at := TrimSpacePlace(s);
    if !BlankEnds(core) && exists at :: BlankAround(s, core, at) {
      var i :| BlankAround(s, core, i);
      SameCore(s, core, i, TrimSpace(s), at);
    }
  }

  /** Trimming and writing in small letters commute. */
  lemma LowerTrim(s: string)
    ensures ToLower(TrimSpace(s)) == TrimSpace(ToLower(s))
  {
    hide TrimSpace, ToLower;
    var core := TrimSpace(s);
    var at := TrimSpacePlace(s);
    TrimSpaceEnds(s);
    ToLowerAt(s);
    ToLowerAt(core);
    assert BlankAround(ToLower(s), ToLower(core), at) by {
      forall k | 0 <= k < |core| ensures ToLower(s)[at + k] == ToLower(core)[k] {
        assert s[at + k] == core[k];
      }
      assert ToLower(s)[at..at + |core|] == ToLower(core);
    }
    TrimSpaceMeans(ToLower(s), ToLower(core));
  }

  lemma SuffixMeans(s: string, suffix: string)
    ensures HasSuffix(s, suffix) <==> exists head: string :: s == head + suffix
    ensures HasSuffix(s, suffix) ==> TrimSuffix(s, suffix) + suffix == s
    ensures !HasSuffix(s, suffix) ==> TrimSuffix(s, suffix) == s
  {
    if HasSuffix(s, suffix) {
      assert s == s[..|s| - |suffix|] + suffix;
    }
  }

  /** Splitting yields the one list of parts without the separator that joins to the string. */
  lemma SplitMeans(s: string, sep: char, parts: seq<string>)
    ensures Join([s], sep) == s
    ensures parts == Split(s, sep) <==> parts != [] && (forall p :: p in parts ==> sep !in p) && Join(parts, sep) == s
  {
    JoinSplit(s, sep);
    if parts != [] && (forall p :: p in parts ==> sep !in p) && Join(parts, sep) == s {
      SplitJoin(parts, sep);
    }
  }
}

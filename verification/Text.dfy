/**
The few string operations the suppression path is built on, over ASCII: strip, lower, substring and
the part after the last at-sign.
*/
module Text {

  predicate IsSpace(c: char) {
    c == ' ' || '\t' <= c <= '\r' || '\U{1C}' <= c <= '\U{1F}'
  }

  function LowerChar(c: char): char {
    if 'A' <= c <= 'Z' then (c as int + 32) as char else c
  }

  function Lower(s: string): (r: string)
    ensures |r| == |s| && forall i | 0 <= i < |s| :: r[i] == LowerChar(s[i])
  {
    if s == "" then "" else [LowerChar(s[0])] + Lower(s[1..])
  }

  lemma {:induction false} LowerFixes(s: string)
    requires forall c <- s :: !('A' <= c <= 'Z')
    ensures Lower(s) == s
  {
    assert forall i | 0 <= i < |s| :: s[i] in s;
  }

  function UpperChar(c: char): char {
    if 'a' <= c <= 'z' then (c as int - 32) as char else c
  }

  function Upper(s: string): (r: string)
    ensures |r| == |s| && forall i | 0 <= i < |s| :: r[i] == UpperChar(s[i])
  {
    if s == "" then "" else [UpperChar(s[0])] + Upper(s[1..])
  }

  function StripLeft(s: string): string {
    if s != "" && IsSpace(s[0]) then StripLeft(s[1..]) else s
  }

  function StripRight(s: string): string {
    if s != "" && IsSpace(s[|s| - 1]) then StripRight(s[..|s| - 1]) else s
  }

  function Strip(s: string): string {
    StripRight(StripLeft(s))
  }

  // email.strip().lower(), the form in which addresses are stored and compared.
  function Norm(s: string): string {
    Lower(Strip(s))
  }

  predicate OccursAt(s: string, sub: string, i: int) {
    0 <= i <= |s| - |sub| && s[i..i + |sub|] == sub
  }

  predicate Contains(s: string, sub: string) {
    exists i | 0 <= i <= |s| :: OccursAt(s, sub, i)
  }

  // email.split("@")[-1]
  function AfterLastAt(s: string): string {
    if s == "" || s[|s| - 1] == '@' then "" else AfterLastAt(s[..|s| - 1]) + [s[|s| - 1]]
  }

  predicate Trimmed(s: string) {
    s == "" || (!IsSpace(s[0]) && !IsSpace(s[|s| - 1]))
  }

  lemma {:induction false} StripLeftTrims(s: string)
    ensures var r := StripLeft(s);
            && |r| <= |s| && r == s[|s| - |r|..]
            && (r == "" || !IsSpace(r[0]))
            && (forall c :: !IsSpace(c) ==> (c in r <==> c in s))
  {
    if s != "" && IsSpace(s[0]) {
      StripLeftTrims(s[1..]);
      assert s == [s[0]] + s[1..];
    }
  }

  lemma {:induction false} StripRightTrims(s: string)
    ensures var r := StripRight(s);
            && |r| <= |s| && r == s[..|r|]
            && (r == "" || !IsSpace(r[|r| - 1]))
            && (forall c :: !IsSpace(c) ==> (c in r <==> c in s))
  {
    if s != "" && IsSpace(s[|s| - 1]) {
      StripRightTrims(s[..|s| - 1]);
      assert s == s[..|s| - 1] + [s[|s| - 1]];
    }
  }

  lemma {:induction false} StripTrims(s: string)
    ensures Trimmed(Strip(s))
    ensures forall c :: !IsSpace(c) ==> (c in Strip(s) <==> c in s)
  {
    StripLeftTrims(s);
    StripRightTrims(StripLeft(s));
  }

  lemma {:induction false} LowerKeepsTrimmed(s: string)
    requires Trimmed(s)
    ensures Trimmed(Lower(s)) && Lower(Lower(s)) == Lower(s)
  {
    var r := Lower(s);
    assert forall i | 0 <= i < |s| :: LowerChar(r[i]) == r[i];
    assert Lower(r) == r;
  }

  lemma {:induction false} TrimmedIsStripped(s: string)
    requires Trimmed(s)
    ensures Strip(s) == s
  {
  }

  // Normalizing twice is normalizing once.
  lemma {:induction false} NormIdempotent(s: string)
    ensures Norm(Norm(s)) == Norm(s)
  {
    StripTrims(s);
    LowerKeepsTrimmed(Strip(s));
    TrimmedIsStripped(Lower(Strip(s)));
  }

  lemma {:induction false} NormKeepsAt(s: string)
    ensures '@' in Norm(s) <==> '@' in s
  {
    var t := Strip(s);
    StripTrims(s);
    if '@' in t {
      var i :| 0 <= i < |t| && t[i] == '@';
      assert Lower(t)[i] == '@';
    }
    if '@' in Lower(t) {
      var i :| 0 <= i < |t| && Lower(t)[i] == '@';
      assert t[i] == '@';
    }
  }

  // ----- The host of an address -----

  // What is after the last at-sign is the part that has none.
  lemma {:induction false} HostIsAfterLastAt(local: string, host: string)
    requires '@' !in host
    ensures AfterLastAt(local + "@" + host) == host
    decreases |host|
  {
    var s := local + "@" + host;
    if host == "" {
      assert s[|s| - 1] == '@';
    } else {
      var front, last := host[..|host| - 1], host[|host| - 1];
      assert last in host && '@' !in front;
      HostIsAfterLastAt(local, front);
      assert s[..|s| - 1] == local + "@" + front && s[|s| - 1] == last;
      assert front + [last] == host;
    }
  }

  lemma {:induction false} StripLeftStops(local: string, rest: string)
    requires rest != "" && !IsSpace(rest[0])
    ensures StripLeft(local + rest) == StripLeft(local) + rest
    decreases |local|
  {
    if local != "" && IsSpace(local[0]) {
      assert (local + rest)[0] == local[0] && (local + rest)[1..] == local[1..] + rest;
      StripLeftStops(local[1..], rest);
    } else if local == "" {
      assert local + rest == rest;
    } else {
      assert (local + rest)[0] == local[0];
    }
  }

  lemma {:induction false} StripRightStops(front: string, host: string)
    requires front != "" && !IsSpace(front[|front| - 1])
    ensures StripRight(front + host) == front + StripRight(host)
    decreases |host|
  {
    var s := front + host;
    if host == "" {
      assert s == front && front + StripRight(host) == front;
    } else if IsSpace(host[|host| - 1]) {
      assert s[..|s| - 1] == front + host[..|host| - 1];
      StripRightStops(front, host[..|host| - 1]);
    }
  }

  // Stripping an address strips its two parts on the outside.
  lemma {:induction false} StripAddress(local: string, host: string)
    ensures Strip(local + "@" + host) == StripLeft(local) + "@" + StripRight(host)
  {
    var rest := "@" + host;
    assert local + "@" + host == local + rest;
    StripLeftStops(local, rest);
    var front := StripLeft(local) + "@";
    assert StripLeft(local) + rest == front + host;
    assert front[|front| - 1] == '@';
    StripRightStops(front, host);
  }

  lemma {:induction false} LowerConcat(a: string, b: string)
    ensures Lower(a + b) == Lower(a) + Lower(b)
  {
  }

  lemma {:induction false} NormAddress(local: string, host: string)
    ensures Norm(local + "@" + host) == Lower(StripLeft(local)) + "@" + Lower(StripRight(host))
  {
    StripAddress(local, host);
    LowerConcat(StripLeft(local) + "@", StripRight(host));
    LowerConcat(StripLeft(local), "@");
    assert Lower("@") == "@";
  }

  lemma {:induction false} LowerKeepsSpace(c: char)
    ensures IsSpace(LowerChar(c)) <==> IsSpace(c)
  {
  }

  lemma {:induction false} StripLeftLower(s: string)
    ensures StripLeft(Lower(s)) == Lower(StripLeft(s))
    decreases |s|
  {
    if s != "" {
      LowerKeepsSpace(s[0]);
      assert Lower(s)[0] == LowerChar(s[0]) && Lower(s)[1..] == Lower(s[1..]);
      StripLeftLower(s[1..]);
    }
  }

  lemma {:induction false} StripRightLower(s: string)
    ensures StripRight(Lower(s)) == Lower(StripRight(s))
    decreases |s|
  {
    if s != "" {
      LowerKeepsSpace(s[|s| - 1]);
      assert Lower(s)[..|s| - 1] == Lower(s[..|s| - 1]);
      StripRightLower(s[..|s| - 1]);
    }
  }

  lemma {:induction false} StripRightOfCons(c: char, t: string)
    ensures StripRight([c] + t) == if StripRight(t) == "" && IsSpace(c) then "" else [c] + StripRight(t)
    decreases |t|
  {
    var s := [c] + t;
    if t == "" {
      assert s == [c] && [c][..0] == "";
    } else if IsSpace(t[|t| - 1]) {
      assert s[..|s| - 1] == [c] + t[..|t| - 1];
      StripRightOfCons(c, t[..|t| - 1]);
    }
  }

  lemma {:induction false} StripsCommute(s: string)
    ensures StripLeft(StripRight(s)) == StripRight(StripLeft(s))
    decreases |s|
  {
    if s != "" {
      assert s == [s[0]] + s[1..];
      StripRightOfCons(s[0], s[1..]);
      if IsSpace(s[0]) {
        StripsCommute(s[1..]);
        StripLeftOfCons(s[0], StripRight(s[1..]));
      }
    }
  }

  lemma {:induction false} StripLeftOfCons(c: char, t: string)
    requires IsSpace(c)
    ensures StripLeft([c] + t) == StripLeft(t)
  {
    assert ([c] + t)[1..] == t;
  }

  lemma {:induction false} StripRightTwice(s: string)
    ensures StripRight(StripRight(s)) == StripRight(s)
  {
    StripRightTrims(s);
  }

  // White space that normalizing strips may as well be stripped before.
  lemma {:induction false} NormOfStripped(s: string)
    ensures Norm(Lower(StripRight(s))) == Norm(s)
  {
    var t := StripRight(s);
    StripLeftLower(t);
    StripRightLower(StripLeft(t));
    StripsCommute(s);
    StripRightTwice(StripLeft(s));
    LowerTwice(Strip(t));
  }

  lemma {:induction false} LowerTwice(s: string)
    ensures Lower(Lower(s)) == Lower(s)
  {
    assert forall i | 0 <= i < |s| :: LowerChar(LowerChar(s[i])) == LowerChar(s[i]);
  }

  // In every address the host is what follows the at-sign it has none of, however it is written.
  lemma {:induction false} HostOfAddress(local: string, host: string)
    requires '@' !in host
    ensures Norm(AfterLastAt(Norm(local + "@" + host))) == Norm(host)
  {
    NormAddress(local, host);
    StripRightTrims(host);
    LowerHasNoAt(StripRight(host));
    HostIsAfterLastAt(Lower(StripLeft(local)), Lower(StripRight(host)));
    NormOfStripped(host);
  }

  lemma {:induction false} LowerHasNoAt(s: string)
    requires '@' !in s
    ensures '@' !in Lower(s)
  {
  }

  // ----- Spellings -----

  lemma {:induction false} UpperKeepsSpace(c: char)
    ensures IsSpace(UpperChar(c)) <==> IsSpace(c)
  {
  }

  lemma {:induction false} StripLeftUpper(s: string)
    ensures StripLeft(Upper(s)) == Upper(StripLeft(s))
    decreases |s|
  {
    if s != "" {
      UpperKeepsSpace(s[0]);
      assert Upper(s)[0] == UpperChar(s[0]) && Upper(s)[1..] == Upper(s[1..]);
      StripLeftUpper(s[1..]);
    }
  }

  lemma {:induction false} StripRightUpper(s: string)
    ensures StripRight(Upper(s)) == Upper(StripRight(s))
    decreases |s|
  {
    if s != "" {
      UpperKeepsSpace(s[|s| - 1]);
      assert Upper(s)[..|s| - 1] == Upper(s[..|s| - 1]);
      StripRightUpper(s[..|s| - 1]);
    }
  }

  lemma {:induction false} LowerOfUpper(s: string)
    ensures Lower(Upper(s)) == Lower(s)
  {
  }

  lemma {:induction false} BlankGoes(blank: string, s: string)
    requires forall c <- blank :: IsSpace(c)
    ensures StripLeft(blank + s) == StripLeft(s)
    decreases |blank|
  {
    if blank == "" {
      assert blank + s == s;
    } else {
      assert blank[0] in blank && (blank + s)[1..] == blank[1..] + s;
      BlankGoes(blank[1..], s);
    }
  }

  lemma {:induction false} BlankGoesAfter(s: string, blank: string)
    requires forall c <- blank :: IsSpace(c)
    ensures StripRight(s + blank) == StripRight(s)
    decreases |blank|
  {
    if blank == "" {
      assert s + blank == s;
    } else {
      var front := blank[..|blank| - 1];
      assert blank[|blank| - 1] in blank && (s + blank)[..|s + blank| - 1] == s + front;
      BlankGoesAfter(s, front);
    }
  }

  // White space around an address, and the case of its letters, do not matter.
  lemma {:induction false} SpellingDoesNotMatter(before: string, s: string, after: string)
    requires (forall c <- before :: IsSpace(c)) && (forall c <- after :: IsSpace(c))
    ensures Norm(before + s + after) == Norm(s) && Norm(Upper(s)) == Norm(s)
  {
    assert before + s + after == before + (s + after);
    BlankGoes(before, s + after);
    StripsCommute(s + after);
    BlankGoesAfter(s, after);
    StripsCommute(s);
    StripLeftUpper(s);
    StripRightUpper(StripLeft(s));
    LowerOfUpper(Strip(s));
  }

  // The characters that are white space, and a letter of each case.
  lemma {:induction false} BlanksAndLetters()
    ensures IsSpace(' ') && IsSpace('\t') && IsSpace('\n') && IsSpace('\r')
    ensures forall c: char | '!' <= c <= '~' :: !IsSpace(c)
    ensures Lower("AZaz@09._-") == "azaz@09._-"
  {
    assert |Lower("AZaz@09._-")| == 10;
  }
}

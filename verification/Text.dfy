/** The few ASCII text operations the release tools use: strip, lower, decimal numerals. */
module Text {

  /** ASCII characters that Python's str.strip removes. */
  predicate IsSpace(c: char) {
    c == ' ' || 9 <= c as int <= 13 || 28 <= c as int <= 31
  }

  ghost predicate AllSpace(s: string) {
    forall i :: 0 <= i < |s| ==> IsSpace(s[i])
  }

  ghost predicate Trimmed(s: string) {
    s == "" || (!IsSpace(s[0]) && !IsSpace(s[|s| - 1]))
  }

  function StripLeft(s: string): (r: string)
    ensures r == "" || !IsSpace(r[0])
    ensures |r| <= |s|
  {
    if s != "" && IsSpace(s[0]) then StripLeft(s[1..]) else s
  }

  function StripRight(s: string): (r: string)
    ensures |r| <= |s|
    ensures r == "" || (!IsSpace(r[|r| - 1]) && r[0] == s[0])
  {
    if s != "" && IsSpace(s[|s| - 1]) then StripRight(s[..|s| - 1]) else s
  }

  function Strip(s: string): (r: string)
    ensures Trimmed(r)
    ensures |r| <= |s|
  {
    StripRight(StripLeft(s))
  }

  /** Stripping removes exactly the blank edges. */
  lemma {:induction false} StripPadded(pre: string, t: string, post: string)
    requires AllSpace(pre) && AllSpace(post) && Trimmed(t)
    ensures Strip(pre + t + post) == t
  {
    if pre == "" {
      assert pre + t + post == t + post;
      if t == "" {
        assert t + post == post;
        StripBlank(post);
      } else {
        assert StripLeft(t + post) == t + post;
        StripTail(t, post);
      }
    } else {
      assert (pre + t + post)[1..] == pre[1..] + t + post;
      assert (pre + t + post)[0] == pre[0];
      StripPadded(pre[1..], t, post);
    }
  }

  lemma {:induction false} StripBlank(s: string)
    requires AllSpace(s)
    ensures StripLeft(s) == "" && Strip(s) == ""
  {
    if s != "" {
      StripBlank(s[1..]);
    }
  }

  lemma {:induction false} StripTail(t: string, post: string)
    requires t != "" && !IsSpace(t[|t| - 1]) && AllSpace(post)
    ensures StripRight(t + post) == t
  {
    if post == "" {
      assert t + post == t;
    } else {
      assert (t + post)[..|t + post| - 1] == t + post[..|post| - 1];
      StripTail(t, post[..|post| - 1]);
    }
  }

  /** Blanks after a stripped line do not matter to a second strip of its tail. */
  lemma StripTrimmed(t: string)
    requires Trimmed(t)
    ensures Strip(t) == t
  {
    StripPadded("", t, "");
    assert "" + t + "" == t;
  }

  function LowerChar(c: char): char {
    if 'A' <= c <= 'Z' then (c as int + 32) as char else c
  }

  function Lower(s: string): (r: string)
    ensures |r| == |s|
  {
    if s == "" then "" else [LowerChar(s[0])] + Lower(s[1..])
  }

  predicate IsDigit(c: char) {
    '0' <= c <= '9'
  }

  function Digit(d: nat): (c: char)
    requires d < 10
    ensures IsDigit(c) && c as int == d + '0' as int
  {
    (d + '0' as int) as char
  }

  /** Canonical decimal notation, as Python formats an int. */
  function Dec(n: nat): (s: string)
    ensures s != "" && forall i :: 0 <= i < |s| ==> IsDigit(s[i])
    ensures n == 0 ==> s == "0"
    ensures n != 0 ==> s[0] != '0'
  {
    if n < 10 then [Digit(n)] else Dec(n / 10) + [Digit(n % 10)]
  }

  predicate AllDigits(s: string) {
    forall i :: 0 <= i < |s| ==> IsDigit(s[i])
  }

  /** Python's int() on a string of ASCII digits. */
  function DecValue(s: string): nat
    requires AllDigits(s)
  {
    if s == "" then 0
    else 10 * DecValue(s[..|s| - 1]) + (s[|s| - 1] as int - '0' as int)
  }

  lemma {:induction false} DecValueOfDec(n: nat)
    ensures DecValue(Dec(n)) == n
  {
    if n >= 10 {
      DecValueOfDec(n / 10);
      assert Dec(n)[..|Dec(n)| - 1] == Dec(n / 10);
    }
  }

  /** A digit string without a needless leading zero is the canonical notation of its value. */
  lemma {:induction false} DecOfDecValue(s: string)
    requires s != "" && AllDigits(s) && (s[0] == '0' ==> |s| == 1)
    ensures Dec(DecValue(s)) == s
    ensures s[0] != '0' ==> DecValue(s) > 0
  {
    var init, last := s[..|s| - 1], s[|s| - 1] as int - '0' as int;
    if init == "" {
      assert DecValue(s) == last;
    } else {
      DecOfDecValue(init);
      assert DecValue(s) / 10 == DecValue(init) && DecValue(s) % 10 == last;
      assert s == init + [s[|s| - 1]];
    }
  }

  /** Python's str.split with a one-character separator. */
  function Split(s: string, sep: char): (r: seq<string>)
    ensures |r| >= 1
  {
    if s == "" then [""]
    else if s[0] == sep then [""] + Split(s[1..], sep)
    else var r := Split(s[1..], sep); [[s[0]] + r[0]] + r[1..]
  }

  lemma {:induction false} SplitWhole(a: string, sep: char)
    requires sep !in a
    ensures Split(a, sep) == [a]
  {
    if a != "" {
      SplitWhole(a[1..], sep);
      assert [a[0]] + a[1..] == a;
    }
  }

  lemma {:induction false} SplitFirst(a: string, sep: char, rest: string)
    requires sep !in a
    ensures Split(a + [sep] + rest, sep) == [a] + Split(rest, sep)
  {
    if a == "" {
      assert (a + [sep] + rest)[1..] == rest;
    } else {
      assert (a + [sep] + rest)[1..] == a[1..] + [sep] + rest;
      SplitFirst(a[1..], sep, rest);
      assert [a[0]] + a[1..] == a;
    }
  }

  /** Splitting off the first field leaves the fields of the tail. */
  lemma {:induction false} SplitRejoin(s: string, sep: char) returns (tail: string)
    ensures sep !in Split(s, sep)[0]
    ensures |Split(s, sep)| == 1 ==> s == Split(s, sep)[0]
    ensures |Split(s, sep)| > 1 ==>
      s == Split(s, sep)[0] + [sep] + tail && Split(tail, sep) == Split(s, sep)[1..]
  {
    tail := "";
    if s != "" {
      if s[0] == sep {
        tail := s[1..];
        assert s == "" + [sep] + tail;
      } else {
        tail := SplitRejoin(s[1..], sep);
        assert s == [s[0]] + s[1..];
      }
    }
  }

  // ---------------------------------------------------------------- what the operations mean

  /** Blanks are tab, line feed, vertical tab, form feed, carriage return, the four separators, and space. */
  lemma SpaceExactly(c: char)
    ensures IsSpace(c) <==>
      c in {'\t', '\n', '\U{000B}', '\U{000C}', '\r', '\U{001C}', '\U{001D}', '\U{001E}', '\U{001F}', ' '}
  {
  }

  /** Stripping takes blanks away at both ends, and nothing else. */
  lemma StripCuts(s: string) returns (pre: string, post: string)
    ensures AllSpace(pre) && AllSpace(post) && s == pre + Strip(s) + post && Trimmed(Strip(s))
  {
    pre := LeftCut(s);
    post := RightCut(StripLeft(s));
    assert s == pre + (Strip(s) + post);
  }

  lemma {:induction false} LeftCut(s: string) returns (pre: string)
    ensures AllSpace(pre) && s == pre + StripLeft(s)
  {
    pre := "";
    if s != "" && IsSpace(s[0]) {
      var rest := LeftCut(s[1..]);
      pre := [s[0]] + rest;
      assert s == [s[0]] + s[1..];
    }
  }

  lemma {:induction false} RightCut(s: string) returns (post: string)
    ensures AllSpace(post) && s == StripRight(s) + post
  {
    post := "";
    if s != "" && IsSpace(s[|s| - 1]) {
      var rest := RightCut(s[..|s| - 1]);
      post := rest + [s[|s| - 1]];
      assert s == s[..|s| - 1] + [s[|s| - 1]];
    }
  }

  /** The same letter, in whatever case. */
  predicate SameLetter(c: char, d: char) {
    || c == d
    || ('a' <= c <= 'z' && d as int == c as int - 'a' as int + 'A' as int)
    || ('a' <= d <= 'z' && c as int == d as int - 'a' as int + 'A' as int)
  }

  ghost predicate SameLetters(s: string, t: string) {
    |s| == |t| && forall i :: 0 <= i < |s| ==> SameLetter(s[i], t[i])
  }

  lemma LowerCharExactly(c: char, d: char)
    ensures LowerChar(c) == LowerChar(d) <==> SameLetter(c, d)
  {
  }

  /** Texts are equal in lower case exactly if their letters are the same, whatever the case. */
  lemma {:induction false} LowerExactly(s: string, t: string)
    ensures Lower(s) == Lower(t) <==> SameLetters(s, t)
  {
    if |s| == |t| && s != "" {
      LowerExactly(s[1..], t[1..]);
      LowerCharExactly(s[0], t[0]);
      assert Lower(s) == [LowerChar(s[0])] + Lower(s[1..]) && Lower(t) == [LowerChar(t[0])] + Lower(t[1..]);
      assert Lower(s)[0] == LowerChar(s[0]) && Lower(t)[0] == LowerChar(t[0]);
      assert Lower(s)[1..] == Lower(s[1..]) && Lower(t)[1..] == Lower(t[1..]);
      assert forall i :: 0 <= i < |s| - 1 ==> s[1..][i] == s[i + 1] && t[1..][i] == t[i + 1];
      assert SameLetters(s, t) <==> SameLetter(s[0], t[0]) && SameLetters(s[1..], t[1..]) by {
        LettersSplit(s, t);
      }
    }
  }

  lemma LettersSplit(s: string, t: string)
    requires |s| == |t| && s != ""
    ensures SameLetters(s, t) <==> SameLetter(s[0], t[0]) && SameLetters(s[1..], t[1..])
  {
    if SameLetter(s[0], t[0]) && SameLetters(s[1..], t[1..]) {
      forall i | 0 <= i < |s|
        ensures SameLetter(s[i], t[i])
      {
        if i > 0 {
          assert s[i] == s[1..][i - 1] && t[i] == t[1..][i - 1];
        }
      }
    }
    if SameLetters(s, t) {
      forall i | 0 <= i < |s| - 1
        ensures SameLetter(s[1..][i], t[1..][i])
      {
        assert s[1..][i] == s[i + 1] && t[1..][i] == t[i + 1];
      }
    }
  }
}

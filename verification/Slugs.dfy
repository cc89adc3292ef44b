/**
 How a role key follows its title: the title's words in lower case, joined by single dashes,
 with the first number that is free behind them.
 */
module Slugs {
  import opened RoleKey

  // ---- Words ----

  /** The word characters a text starts with. */
  function FirstWord(s: string): (w: string)
    ensures |w| <= |s| && w == s[..|w|] && (forall i | 0 <= i < |w| :: WordChar(w[i]))
    ensures |w| < |s| ==> !WordChar(s[|w|])
    ensures s != "" && WordChar(s[0]) ==> w != ""
  {
    if s == "" || !WordChar(s[0]) then "" else [s[0]] + FirstWord(s[1..])
  }

  /** The maximal runs of word characters, in order. */
  function Words(s: string): seq<string>
    decreases |s|
  {
    if s == "" then []
    else if !WordChar(s[0]) then Words(s[1..])
    else [FirstWord(s)] + Words(s[|FirstWord(s)|..])
  }

  function Joined(words: seq<string>): string {
    if words == [] then ""
    else if |words| == 1 then words[0]
    else words[0] + "-" + Joined(words[1..])
  }

  lemma {:induction false} SkippedWords(s: string)
    ensures Words(SkipGap(s)) == Words(s)
    decreases |s|
  {
    if s != "" && !WordChar(s[0]) {
      SkippedWords(s[1..]);
    }
  }

  lemma {:induction false} DashedWord(s: string, w: string)
    requires |w| <= |s| && s[..|w|] == w && forall i | 0 <= i < |w| :: WordChar(w[i])
    ensures Dashed(s) == w + Dashed(s[|w|..])
    decreases |w|
  {
    if w == "" {
      assert s[0..] == s;
    } else {
      assert s[1..][..|w| - 1] == w[1..] && s[1..][|w| - 1..] == s[|w|..];
      DashedWord(s[1..], w[1..]);
      assert [w[0]] + w[1..] == w;
      assert [s[0]] + (w[1..] + Dashed(s[|w|..])) == w + Dashed(s[|w|..]);
    }
  }

  lemma {:induction false} TrimKeeps(a: string, b: string)
    requires TrimRight(b) != ""
    ensures TrimRight(a + b) == a + TrimRight(b)
    decreases |b|
  {
    if b[|b| - 1] == '-' {
      assert (a + b)[..|a + b| - 1] == a + b[..|b| - 1];
      TrimKeeps(a, b[..|b| - 1]);
    }
  }

  lemma TrimWord(w: string)
    requires w != "" && WordChar(w[|w| - 1])
    ensures TrimRight(w) == w && TrimRight(w + "-") == w
  {
    assert (w + "-")[..|w|] == w;
  }

  /** From a word on, dashing and trimming joins the words. */
  lemma {:induction false} JoinsWords(s: string)
    requires s == "" || WordChar(s[0])
    ensures TrimRight(Dashed(s)) == Joined(Words(s))
    ensures s != "" ==> Words(s) != [] && Joined(Words(s)) != ""
    decreases |s|
  {
    if s != "" {
      var w := FirstWord(s);
      var rest := s[|w|..];
      DashedWord(s, w);
      TrimWord(w);
      if rest == "" {
        assert Words(rest) == [] && Dashed(rest) == "" && w + "" == w;
      } else {
        var next := SkipGap(rest[1..]);
        assert Dashed(rest) == "-" + Dashed(next);
        SkippedWords(rest[1..]);
        assert Words(rest) == Words(next);
        JoinsWords(next);
        WordThenRest(w, next);
      }
    }
  }

  lemma WordThenRest(w: string, next: string)
    requires w != "" && WordChar(w[|w| - 1]) && TrimRight(Dashed(next)) == Joined(Words(next))
    requires if next == "" then Words(next) == [] else Words(next) != [] && Joined(Words(next)) != ""
    ensures TrimRight(w + ("-" + Dashed(next))) == Joined([w] + Words(next))
  {
    hide Words, TrimRight, Dashed;
    TrimWord(w);
    if next == "" {
      NothingDashed();
      assert "-" + "" == "-" && [w] + [] == [w];
    } else {
      TrimKeeps(w + "-", Dashed(next));
      assert w + ("-" + Dashed(next)) == (w + "-") + Dashed(next);
      assert ([w] + Words(next))[1..] == Words(next);
    }
  }

  lemma NothingDashed()
    ensures Dashed("") == ""
  {
  }

  /** A slug is the words of the title, in lower case, joined by single dashes. */
  lemma SlugExactly(title: string)
    ensures Slug(title) == Joined(Words(LowerAll(title)))
  {
    var s := LowerAll(title);
    hide LowerAll, Words, Joined;
    SkippedWords(s);
    JoinsWords(SkipGap(s));
    LeadingGap(s);
  }

  lemma LeadingGap(s: string)
    ensures TrimLeft(Dashed(s)) == Dashed(SkipGap(s))
  {
    if s != "" && !WordChar(s[0]) {
      var next := SkipGap(s[1..]);
      assert Dashed(s) == "-" + Dashed(next) && Dashed(s)[1..] == Dashed(next);
      assert next != "" ==> Dashed(next)[0] == next[0];
    }
  }

  /**
   Letter by letter: a capital becomes its small letter, small letters and digits stay, the Kelvin sign and the
   dotted capital I count as k and i, and nothing else is part of a word.
   */
  lemma LettersFold(title: string, i: nat)
    requires i < |title|
    ensures |LowerAll(title)| == |title|
    ensures 'A' <= title[i] <= 'Z' ==> LowerAll(title)[i] as int - 'a' as int == title[i] as int - 'A' as int
    ensures 'a' <= title[i] <= 'z' || '0' <= title[i] <= '9' ==> LowerAll(title)[i] == title[i]
    ensures title[i] == '\U{212A}' ==> LowerAll(title)[i] == 'k'
    ensures title[i] == '\U{0130}' ==> LowerAll(title)[i] == 'i'
    ensures WordChar(LowerAll(title)[i]) <==>
      || 'A' <= title[i] <= 'Z' || 'a' <= title[i] <= 'z' || '0' <= title[i] <= '9'
      || title[i] == '\U{212A}' || title[i] == '\U{0130}'
  {
  }

  /** Case makes no difference. */
  lemma CaseIgnored(title: string)
    ensures Base(LowerAll(title)) == Base(title)
  {
    assert LowerAll(LowerAll(title)) == LowerAll(title);
  }

  // ---- Numbers ----

  function Value(digits: string): nat {
    if digits == "" then 0
    else Value(digits[..|digits| - 1]) * 10
         + (if '0' <= digits[|digits| - 1] <= '9' then digits[|digits| - 1] as int - '0' as int else 0)
  }

  /** The suffix is the number in decimal, without leading zeros. */
  lemma {:induction false} DecimalExactly(n: nat)
    ensures Value(Decimal(n)) == n && Decimal(n) != "" && (n > 0 ==> Decimal(n)[0] != '0')
  {
    if n >= 10 {
      DecimalExactly(n / 10);
      assert Decimal(n)[..|Decimal(n)| - 1] == Decimal(n / 10);
    } else {
      assert Decimal(n)[..0] == "";
    }
  }

  /** The words of the title, or "role" when it has none. */
  function Stem(title: string): string {
    if Words(LowerAll(title)) == [] then "role" else Joined(Words(LowerAll(title)))
  }

  lemma {:induction false} JoinedEmpty(s: string)
    ensures Joined(Words(s)) == "" <==> Words(s) == []
  {
    SkippedWords(s);
    JoinsWords(SkipGap(s));
  }

  lemma {:induction false} SearchFirst(taken: set<string>, base: string, n: nat) returns (m: nat)
    requires n >= 1 && FirstKeys(base, n - 1) <= taken
    ensures m >= n && MintFrom(taken, base, n) == KeyAt(base, m) && KeyAt(base, m) !in taken
    ensures forall j: nat | n <= j < m :: KeyAt(base, j) in taken
    decreases |taken| + 1 - n
  {
    hide KeyAt;
    TakenFits(taken, base, n - 1);
    if KeyAt(base, n) !in taken {
      m := n;
    } else {
      assert FirstKeys(base, n) == FirstKeys(base, n - 1) + {KeyAt(base, n)};
      TakenFits(taken, base, n);
      m := SearchFirst(taken, base, n + 1);
    }
  }

  /**
   A title's key is its words, or those with the first number from two on that is not taken: the bare words when
   they are free, and otherwise every lower number was taken.
   */
  lemma MintedExactly(taken: set<string>, title: string)
    ensures Stem(title) !in taken ==> Minted(taken, title) == Stem(title)
    ensures Stem(title) in taken ==>
      exists n: nat :: n >= 2 && Minted(taken, title) == Stem(title) + "-" + Decimal(n)
                  && forall m: nat | 2 <= m < n :: Stem(title) + "-" + Decimal(m) in taken
  {
    hide Words, Joined, LowerAll, Decimal;
    SlugExactly(title);
    JoinedEmpty(LowerAll(title));
    var base := Base(title);
    assert base == Stem(title) && FirstKeys(base, 0) == {};
    var n := SearchFirst(taken, base, 1);
    assert KeyAt(base, 1) == base;
    if base in taken {
      assert n >= 2;
      forall m: nat | 2 <= m < n ensures base + "-" + Decimal(m) in taken {
        assert KeyAt(base, m) in taken;
      }
    } else {
      assert n == 1;
    }
  }
}

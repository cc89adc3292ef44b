/**
 Minting a workflow role key from its title: lower-case words joined by single dashes,
 numbered past every key ever taken.
 */
module RoleKey {

  /** Lower case as far as the slug can see it: two letters outside ASCII fold into it. */
  function Lower(c: char): char {
    if 'A' <= c <= 'Z' then (c as int + 32) as char
    else if c == '\U{212A}' then 'k'
    else if c == '\U{0130}' then 'i'
    else c
  }

  function LowerAll(s: string): string {
    seq(|s|, i requires 0 <= i < |s| => Lower(s[i]))
  }

  predicate WordChar(c: char) {
    'a' <= c <= 'z' || '0' <= c <= '9'
  }

  /** Drops the leading characters that are no word characters. */
  function SkipGap(s: string): (r: string)
    ensures |r| <= |s|
    ensures r != [] ==> WordChar(r[0])
  {
    if s == [] || WordChar(s[0]) then s else SkipGap(s[1..])
  }

  /** Every maximal gap becomes one dash. */
  function Dashed(s: string): string
    decreases |s|
  {
    if s == [] then ""
    else if WordChar(s[0]) then [s[0]] + Dashed(s[1..])
    else "-" + Dashed(SkipGap(s[1..]))
  }

  function TrimLeft(s: string): string {
    if s != [] && s[0] == '-' then TrimLeft(s[1..]) else s
  }

  function TrimRight(s: string): string {
    if s != [] && s[|s| - 1] == '-' then TrimRight(s[..|s| - 1]) else s
  }

  function Slug(title: string): string {
    TrimRight(TrimLeft(Dashed(LowerAll(title))))
  }

  function Base(title: string): string {
    var slug := Slug(title);
    if slug == "" then "role" else slug
  }

  function Decimal(n: nat): string {
    if n < 10 then [('0' as int + n) as char] else Decimal(n / 10) + [('0' as int + n % 10) as char]
  }

  /** The first key is the base alone; the n-th carries the suffix "-n". */
  function KeyAt(base: string, n: nat): string {
    if n < 2 then base else base + "-" + Decimal(n)
  }

  // ---- Shape ----

  /** Word characters and dashes, no dash next to another. */
  ghost predicate SingleDashes(s: string) {
    && (forall i | 0 <= i < |s| :: WordChar(s[i]) || s[i] == '-')
    && (forall i | 0 < i < |s| :: s[i - 1] == '-' ==> WordChar(s[i]))
  }

  /** Nonempty lower-case alphanumeric words joined by single dashes. */
  ghost predicate IsKey(s: string) {
    SingleDashes(s) && s != "" && WordChar(s[0]) && WordChar(s[|s| - 1])
  }

  lemma {:induction false} DashedShape(s: string)
    ensures SingleDashes(Dashed(s))
    ensures s != [] && WordChar(s[0]) ==> Dashed(s) != "" && WordChar(Dashed(s)[0])
    decreases |s|
  {
    if s != [] {
      if WordChar(s[0]) {
        DashedShape(s[1..]);
      } else {
        DashedShape(SkipGap(s[1..]));
      }
    }
  }

  lemma {:induction false} TrimLeftShape(s: string)
    requires SingleDashes(s)
    ensures SingleDashes(TrimLeft(s))
    ensures TrimLeft(s) != "" ==> WordChar(TrimLeft(s)[0])
  {
    if s != [] && s[0] == '-' {
      TrimLeftShape(s[1..]);
    }
  }

  lemma {:induction false} TrimRightShape(s: string)
    requires SingleDashes(s) && (s != "" ==> WordChar(s[0]))
    ensures SingleDashes(TrimRight(s))
    ensures TrimRight(s) != "" ==> WordChar(TrimRight(s)[0]) && WordChar(TrimRight(s)[|TrimRight(s)| - 1])
  {
    if s != [] && s[|s| - 1] == '-' {
      TrimRightShape(s[..|s| - 1]);
    }
  }

  lemma {:induction false} DecimalShape(n: nat)
    ensures Decimal(n) != "" && forall i | 0 <= i < |Decimal(n)| :: '0' <= Decimal(n)[i] <= '9'
  {
    if n >= 10 {
      DecimalShape(n / 10);
    }
  }

  lemma KeyShape(title: string, n: nat)
    ensures IsKey(KeyAt(Base(title), n))
  {
    DashedShape(LowerAll(title));
    TrimLeftShape(Dashed(LowerAll(title)));
    TrimRightShape(TrimLeft(Dashed(LowerAll(title))));
    SuffixShape(Base(title), n);
  }

  lemma SuffixShape(base: string, n: nat)
    requires IsKey(base)
    ensures IsKey(KeyAt(base, n))
  {
    hide Decimal;
    if n >= 2 {
      DecimalShape(n);
      var key, d := KeyAt(base, n), Decimal(n);
      assert key == base + "-" + d;
      assert key[|key| - 1] == d[|d| - 1];
      forall i | 0 <= i < |key|
        ensures WordChar(key[i]) || key[i] == '-'
        ensures 0 < i && key[i - 1] == '-' ==> WordChar(key[i])
      {
        if i > |base| {
          assert key[i] == d[i - |base| - 1];
        }
      }
    }
  }

  // ---- Distinctness and termination ----

  lemma {:induction false} DecimalInjective(m: nat, n: nat)
    requires Decimal(m) == Decimal(n)
    ensures m == n
  {
    DecimalShape(m / 10);
    DecimalShape(n / 10);
    var a, b := Decimal(m), Decimal(n);
    assert a[|a| - 1] == b[|b| - 1];
    if m >= 10 && n >= 10 {
      assert a[..|a| - 1] == Decimal(m / 10) && b[..|b| - 1] == Decimal(n / 10);
      DecimalInjective(m / 10, n / 10);
    }
  }

  lemma KeysDistinct(base: string, m: nat, n: nat)
    requires 1 <= m < n
    ensures KeyAt(base, m) != KeyAt(base, n)
  {
    if KeyAt(base, m) == KeyAt(base, n) {
      var key := KeyAt(base, n);
      assert |key| > |base|;
      assert key[|base| + 1..] == Decimal(n);
      assert m >= 2;
      assert KeyAt(base, m)[|base| + 1..] == Decimal(m);
      DecimalInjective(m, n);
    }
  }

  /** The first `n` keys of a base. */
  ghost function FirstKeys(base: string, n: nat): set<string> {
    set i | 1 <= i <= n :: KeyAt(base, i)
  }

  lemma {:induction false} FirstKeysCount(base: string, n: nat)
    ensures |FirstKeys(base, n)| == n
  {
    if n > 0 {
      FirstKeysCount(base, n - 1);
      forall i | 1 <= i <= n - 1 ensures KeyAt(base, i) != KeyAt(base, n) {
        KeysDistinct(base, i, n);
      }
      assert FirstKeys(base, n) == FirstKeys(base, n - 1) + {KeyAt(base, n)};
    }
  }

  lemma {:induction false} SubsetFits<T>(a: set<T>, b: set<T>)
    requires a <= b
    ensures |a| <= |b|
  {
    assert b == a + (b - a);
  }

  /** The search stops: only finitely many keys are taken. */
  lemma TakenFits(taken: set<string>, base: string, n: nat)
    requires FirstKeys(base, n) <= taken
    ensures n <= |taken|
  {
    FirstKeysCount(base, n);
    SubsetFits(FirstKeys(base, n), taken);
  }

  /** The first free key from the n-th on, all earlier ones being taken. */
  function MintFrom(taken: set<string>, base: string, n: nat): (key: string)
    requires n >= 1 && FirstKeys(base, n - 1) <= taken
    ensures key !in taken && exists m: nat :: m >= n && key == KeyAt(base, m)
    decreases |taken| + 1 - n
  {
    TakenFits(taken, base, n - 1);
    if KeyAt(base, n) !in taken then KeyAt(base, n)
    else
      assert FirstKeys(base, n) <= taken by {
        assert FirstKeys(base, n) == FirstKeys(base, n - 1) + {KeyAt(base, n)};
      }
      TakenFits(taken, base, n);
      MintFrom(taken, base, n + 1)
  }

  function Minted(taken: set<string>, title: string): string {
    MintFrom(taken, Base(title), 1)
  }

  /** Whatever is taken, the key is free and well formed. */
  lemma MintedKey(taken: set<string>, title: string)
    ensures Minted(taken, title) !in taken && IsKey(Minted(taken, title))
  {
    var n :| n >= 1 && Minted(taken, title) == KeyAt(Base(title), n);
    KeyShape(title, n);
  }

  /** The source's counter loop. */
  method NewRoleKey(taken: set<string>, title: string) returns (key: string)
    ensures key == Minted(taken, title)
  {
    var base := Base(title);
    if base !in taken {
      return base;
    }
    assert KeyAt(base, 1) == base && KeyAt(base, 1) in FirstKeys(base, 1);
    assert forall k | k in FirstKeys(base, 1) :: k == base;
    var n := 2;
    while true
      invariant n >= 2 && FirstKeys(base, n - 1) <= taken
      invariant MintFrom(taken, base, n) == Minted(taken, title)
      decreases |taken| + 1 - n
    {
      TakenFits(taken, base, n - 1);
      key := base + "-" + Decimal(n);
      if key !in taken {
        return;
      }
      assert FirstKeys(base, n) == FirstKeys(base, n - 1) + {KeyAt(base, n)};
      TakenFits(taken, base, n);
      n := n + 1;
    }
  }
}

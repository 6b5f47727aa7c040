/** The path column of cornflow/models/case.py: "1/7/9/" lists the ancestors of
    a case, root first, each followed by the separator. */
module CasePaths {

  const SEPARATOR: char := '/'

  function Digit(d: nat): (c: char)
    requires d < 10
    ensures c != SEPARATOR
  {
    ['0', '1', '2', '3', '4', '5', '6', '7', '8', '9'][d]
  }

  /** `str(n)` */
  function Str(n: nat): (s: string)
    ensures s != [] && SEPARATOR !in s
  {
    if n < 10 then [Digit(n)] else Str(n / 10) + [Digit(n % 10)]
  }

  /** What a string of digits stands for. */
  function NumberOf(s: string): int {
    if s == "" then 0 else 10 * NumberOf(s[..|s| - 1]) + (s[|s| - 1] as int - '0' as int)
  }

  /** The decimal notation of n, without leading zeros. */
  predicate IsDecimal(s: string, n: nat) {
    && s != "" && (forall i :: 0 <= i < |s| ==> '0' <= s[i] <= '9')
    && NumberOf(s) == n && (s[0] == '0' ==> n == 0 && |s| == 1)
  }

  lemma {:induction false} StrIsDecimal(n: nat)
    ensures IsDecimal(Str(n), n)
  {
    if n >= 10 {
      StrIsDecimal(n / 10);
      DigitMore(Str(n / 10), n / 10, n % 10);
    } else {
      assert Str(n)[..0] == "";
    }
  }

  lemma {:induction false} DigitMore(s: string, n: nat, d: nat)
    requires IsDecimal(s, n) && n > 0 && d < 10
    ensures IsDecimal(s + [Digit(d)], 10 * n + d)
  {
    assert (s + [Digit(d)])[..|s|] == s;
  }

  /** No other string is. */
  lemma {:induction false} DecimalIsStr(s: string, n: nat)
    requires IsDecimal(s, n)
    ensures s == Str(n)
  {
    if |s| > 1 {
      DecimalFront(s, n);
      hide IsDecimal;
      DecimalIsStr(s[..|s| - 1], n / 10);
      assert s == s[..|s| - 1] + [s[|s| - 1]];
    } else {
      assert s[..0] == "";
      assert NumberOf(s) == s[0] as int - '0' as int;
      assert s == [Digit(n)];
    }
  }

  lemma {:induction false} DecimalFront(s: string, n: nat)
    requires IsDecimal(s, n) && |s| > 1
    ensures n >= 10 && IsDecimal(s[..|s| - 1], n / 10) && s[|s| - 1] == Digit(n % 10)
  {
    var front := s[..|s| - 1];
    DecimalIsPositive(s);
    assert NumberOf(front) == n / 10;
    DecimalIsPositive(front);
  }

  lemma {:induction false} DecimalIsPositive(s: string)
    requires s != "" && s[0] != '0' && forall i :: 0 <= i < |s| ==> '0' <= s[i] <= '9'
    ensures NumberOf(s) > 0 && (|s| > 1 ==> NumberOf(s) >= 10)
  {
    if |s| > 1 {
      DecimalIsPositive(s[..|s| - 1]);
    }
  }

  lemma DigitIsInjective(a: nat, b: nat)
    requires a < 10 && b < 10 && Digit(a) == Digit(b)
    ensures a == b
  {
    var digits := ['0', '1', '2', '3', '4', '5', '6', '7', '8', '9'];
    assert digits[a] == digits[b];
    assert forall i, j :: 0 <= i < j < 10 ==> digits[i] != digits[j];
  }

  lemma {:induction false} StrIsInjective(a: nat, b: nat)
    requires Str(a) == Str(b)
    ensures a == b
  {
    assert Digit(a % 10) == Str(a)[|Str(a)| - 1] == Digit(b % 10);
    DigitIsInjective(a % 10, b % 10);
    StrLength(a);
    StrLength(b);
    if a >= 10 {
      assert Str(a / 10) == Str(a)[..|Str(a)| - 1];
      assert Str(b / 10) == Str(b)[..|Str(b)| - 1];
      StrIsInjective(a / 10, b / 10);
    }
  }

  lemma {:induction false} StrLength(n: nat)
    ensures |Str(n)| == 1 <==> n < 10
  {
  }

  /** The path of a child of the case `id` whose own path is `path`. */
  function ChildPath(path: string, id: nat): string {
    path + Str(id) + [SEPARATOR]
  }

  /** Either the root path or one that ends in a separator. */
  predicate Closed(path: string) {
    path == "" || path[|path| - 1] == SEPARATOR
  }

  /** Splitting before the last component is unambiguous. */
  lemma ChildPathIsInjective(p: string, a: nat, q: string, b: nat)
    requires Closed(p) && Closed(q) && ChildPath(p, a) == ChildPath(q, b)
    ensures p == q && a == b
  {
    var whole := ChildPath(p, a);
    NoSeparatorInside(p, a);
    NoSeparatorInside(q, b);
    assert q != "" ==> whole[|q| - 1] == SEPARATOR;
    assert p != "" ==> whole[|p| - 1] == SEPARATOR;
    assert p == whole[..|p|] && q == whole[..|q|];
    assert Str(a) == whole[|p|..|whole| - 1] && Str(b) == whole[|q|..|whole| - 1];
    StrIsInjective(a, b);
  }

  lemma NoSeparatorInside(p: string, a: nat)
    ensures forall i :: |p| <= i < |ChildPath(p, a)| - 1 ==> ChildPath(p, a)[i] != SEPARATOR
  {
    forall i | |p| <= i < |ChildPath(p, a)| - 1 ensures ChildPath(p, a)[i] != SEPARATOR {
      assert ChildPath(p, a)[i] == Str(a)[i - |p|];
      assert Str(a)[i - |p|] in Str(a);
    }
  }

  /** Prefix safety: a closed prefix of a child's path is the whole of it or a
      prefix of the parent's path. */
  lemma ClosedPrefix(prefix: string, p: string, a: nat)
    requires Closed(prefix) && prefix != "" && prefix <= ChildPath(p, a)
    ensures prefix == ChildPath(p, a) || prefix <= p
  {
    NoSeparatorInside(p, a);
    assert ChildPath(p, a)[|prefix| - 1] == SEPARATOR;
  }

  // ---- the LIKE operator ----

  /** SQL's `s LIKE pattern`, with the wildcards '%' and '_'. */
  predicate Like(s: string, pattern: string)
    decreases |pattern|
  {
    if pattern == "" then s == ""
    else if pattern[0] == '%' then exists k: nat :: k <= |s| && Like(s[k..], pattern[1..])
    else s != "" && (pattern[0] == '_' || pattern[0] == s[0]) && Like(s[1..], pattern[1..])
  }

  ghost predicate NoWildcard(s: string) {
    forall i :: 0 <= i < |s| ==> s[i] != '%' && s[i] != '_'
  }

  /** On text without wildcards, `LIKE text || '%'` is the prefix test. */
  lemma {:induction false} LikeIsPrefix(s: string, text: string)
    requires NoWildcard(text)
    ensures Like(s, text + "%") <==> text <= s
  {
    if text == "" {
      assert Like(s[|s|..], "");
    } else {
      assert (text + "%")[1..] == text[1..] + "%";
      if s != "" {
        LikeIsPrefix(s[1..], text[1..]);
        if text[0] == s[0] && text[1..] <= s[1..] {
          assert s == [s[0]] + s[1..] && text == [text[0]] + text[1..];
        }
      }
    }
  }

  lemma {:induction false} StrHasNoWildcard(n: nat)
    ensures NoWildcard(Str(n))
  {
    if n >= 10 {
      StrHasNoWildcard(n / 10);
    }
  }

  // ---- depth ----

  /** `s.split("/")` */
  function Split(s: string): (parts: seq<string>)
    ensures |parts| > 0
  {
    if s == "" then [""]
    else
      var rest := Split(s[..|s| - 1]);
      if s[|s| - 1] == SEPARATOR then rest + [""]
      else rest[|rest| - 1 := rest[|rest| - 1] + [s[|s| - 1]]]
  }

  lemma {:induction false} SplitAppend(s: string, t: string)
    requires SEPARATOR !in t
    ensures |Split(s + t)| == |Split(s)|
  {
    if t == "" {
      assert s + t == s;
    } else {
      assert (s + t)[..|s + t| - 1] == s + t[..|t| - 1];
      assert t[|t| - 1] in t;
      SplitAppend(s, t[..|t| - 1]);
    }
  }

  lemma {:induction false} SplitOfChild(p: string, a: nat)
    ensures |Split(ChildPath(p, a))| == |Split(p)| + 1
  {
    SplitAppend(p, Str(a));
    assert ChildPath(p, a)[..|ChildPath(p, a)| - 1] == p + Str(a);
  }
}

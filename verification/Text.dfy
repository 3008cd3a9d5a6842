/** Go string functions. Strings are sequences of code points. */
module Text {
  import opened Options

  function LowerChar(c: char): char {
    if 'A' <= c <= 'Z' then (c as int + 32) as char else c
  }

  /** strings.ToLower on the ASCII letters. */
  function ToLower(s: string): string {
    seq(|s|, i requires 0 <= i < |s| => LowerChar(s[i]))
  }

  /** strings.TrimLeft with a set of characters. */
  function TrimLeft(s: string, cut: set<char>): string {
    if s != "" && s[0] in cut then TrimLeft(s[1..], cut) else s
  }

  /** strings.TrimRight with a set of characters. */
  function TrimRight(s: string, cut: set<char>): string {
    if s != "" && s[|s| - 1] in cut then TrimRight(s[..|s| - 1], cut) else s
  }

  /** strings.Trim with a set of characters. */
  function Trim(s: string, cut: set<char>): string { TrimRight(TrimLeft(s, cut), cut) }

  lemma {:induction false} TrimLeftDrops(before: string, s: string, cut: set<char>)
    requires forall c | c in before :: c in cut
    ensures TrimLeft(before + s, cut) == TrimLeft(s, cut)
  {
    if before == "" {
      assert before + s == s;
    } else {
      assert (before + s)[0] == before[0] && before[0] in before && (before + s)[1..] == before[1..] + s;
      TrimLeftDrops(before[1..], s, cut);
    }
  }

  lemma {:induction false} TrimRightDrops(s: string, after: string, cut: set<char>)
    requires forall c | c in after :: c in cut
    ensures TrimRight(s + after, cut) == TrimRight(s, cut)
  {
    if after == "" {
      assert s + after == s;
    } else {
      var last := |after| - 1;
      assert (s + after)[|s| + last] == after[last] && after[last] in after;
      assert (s + after)[..|s| + last] == s + after[..last];
      TrimRightDrops(s, after[..last], cut);
    }
  }

  /** strings.EqualFold(s, t) for a lower-case ASCII t: letters match in either case, and so does the
      Kelvin sign for k. */
  predicate EqualFold(s: string, t: string) {
    |s| == |t| && forall i | 0 <= i < |s| :: LowerChar(s[i]) == t[i] || (s[i] == '\U{212A}' && t[i] == 'k')
  }

  // ---------- White space ----------

  /** unicode.IsSpace. */
  predicate IsSpace(c: char) {
    c == ' ' || '\t' <= c <= '\r' || c == '\U{85}' || c == '\U{A0}' || c == '\U{1680}' ||
    '\U{2000}' <= c <= '\U{200A}' || c == '\U{2028}' || c == '\U{2029}' || c == '\U{202F}' ||
    c == '\U{205F}' || c == '\U{3000}'
  }

  function TrimLeftSpace(s: string): string {
    if s != "" && IsSpace(s[0]) then TrimLeftSpace(s[1..]) else s
  }

  function TrimRightSpace(s: string): string {
    if s != "" && IsSpace(s[|s| - 1]) then TrimRightSpace(s[..|s| - 1]) else s
  }

  /** strings.TrimSpace. */
  function TrimSpace(s: string): string { TrimRightSpace(TrimLeftSpace(s)) }

  function Spaces(n: nat): string { seq(n, _ => ' ') }

  /** No white space anywhere. */
  predicate Solid(s: string) { forall i | 0 <= i < |s| :: !IsSpace(s[i]) }

  lemma {:induction false} TrimLeftSpaces(n: nat, s: string)
    ensures TrimLeftSpace(Spaces(n) + s) == TrimLeftSpace(s)
  {
    if n == 0 {
      assert Spaces(0) + s == s;
    } else {
      TrimLeftSpaces(n - 1, s);
      assert (Spaces(n) + s)[1..] == Spaces(n - 1) + s;
    }
  }

  lemma {:induction false} TrimRightSpaces(s: string, n: nat)
    ensures TrimRightSpace(s + Spaces(n)) == TrimRightSpace(s)
  {
    if n == 0 {
      assert s + Spaces(0) == s;
    } else {
      TrimRightSpaces(s, n - 1);
      var t := s + Spaces(n);
      assert t[..|t| - 1] == s + Spaces(n - 1);
    }
  }

  /** Surrounding blanks are trimmed down to a core that starts and ends with something else. */
  lemma {:induction false} TrimPadded(n: nat, s: string, m: nat)
    requires s != "" ==> !IsSpace(s[0]) && !IsSpace(s[|s| - 1])
    ensures TrimSpace(Spaces(n) + s + Spaces(m)) == s
  {
    assert Spaces(n) + s + Spaces(m) == Spaces(n) + (s + Spaces(m));
    TrimLeftSpaces(n, s + Spaces(m));
    if s == "" {
      assert s + Spaces(m) == Spaces(m) + "";
      TrimLeftSpaces(m, "");
    } else {
      TrimRightSpaces(s, m);
    }
  }

  // ---------- Splitting ----------

  /** strings.Split at a one-character separator. */
  function Split(s: string, c: char): (parts: seq<string>)
    ensures |parts| >= 1
  {
    if s == "" then [""]
    else
      var rest := Split(s[1..], c);
      if s[0] == c then [""] + rest else [[s[0]] + rest[0]] + rest[1..]
  }

  lemma {:induction false} SplitNone(s: string, c: char)
    requires c !in s
    ensures Split(s, c) == [s]
  {
    if s != "" {
      assert s == [s[0]] + s[1..];
      SplitNone(s[1..], c);
    }
  }

  lemma {:induction false} SplitAt(a: string, c: char, b: string)
    requires c !in a
    ensures Split(a + [c] + b, c) == [a] + Split(b, c)
  {
    var s := a + [c] + b;
    if a == "" {
      assert s[1..] == b;
    } else {
      assert a == [a[0]] + a[1..];
      assert s[1..] == a[1..] + [c] + b;
      SplitAt(a[1..], c, b);
    }
  }

  /** The leading part of s without white space. */
  function Word(s: string): (w: string)
    ensures |w| <= |s|
  {
    if s == "" || IsSpace(s[0]) then "" else [s[0]] + Word(s[1..])
  }

  /** strings.Fields. */
  function Fields(s: string): seq<string>
    decreases |s|
  {
    if s == "" then []
    else if IsSpace(s[0]) then Fields(s[1..])
    else [Word(s)] + Fields(s[|Word(s)|..])
  }

  lemma {:induction false} WordOf(w: string, n: nat, rest: string)
    requires Solid(w) && (n > 0 || rest == "")
    ensures Word(w + Spaces(n) + rest) == w
  {
    var s := w + Spaces(n) + rest;
    if w != "" {
      assert s[1..] == w[1..] + Spaces(n) + rest;
      WordOf(w[1..], n, rest);
    }
  }

  lemma {:induction false} FieldsSkip(n: nat, s: string)
    ensures Fields(Spaces(n) + s) == Fields(s)
  {
    if n == 0 {
      assert Spaces(0) + s == s;
    } else {
      FieldsSkip(n - 1, s);
      assert (Spaces(n) + s)[1..] == Spaces(n - 1) + s;
    }
  }

  /** Two words with blanks between them. */
  lemma {:induction false} FieldsTwo(a: string, n: nat, b: string)
    requires Solid(a) && Solid(b) && a != "" && b != "" && n > 0
    ensures Fields(a + Spaces(n) + b) == [a, b]
  {
    var s := a + Spaces(n) + b;
    WordOf(a, n, b);
    assert s[|a|..] == Spaces(n) + b;
    FieldsSkip(n, b);
    assert b + Spaces(0) + "" == b;
    WordOf(b, 0, "");
    assert b[|b|..] == "";
  }

  // ---------- Searching ----------

  /** strings.Index: position of the first occurrence of t in s, or -1. */
  function Index(s: string, t: string): (r: int)
    ensures r >= 0 ==> r + |t| <= |s| && t <= s[r..]
  {
    if t <= s then 0
    else if s == "" then -1
    else
      var i := Index(s[1..], t);
      if i < 0 then -1 else i + 1
  }

  lemma IndexStep(s: string, t: string)
    requires s != "" && t != "" && s[0] != t[0]
    ensures Index(s, t) == if Index(s[1..], t) < 0 then -1 else Index(s[1..], t) + 1
  {
  }

  /** A text that begins with a character not in a is found in a + b where it is found in b. */
  lemma {:induction false} IndexSkips(a: string, b: string, t: string)
    requires t != "" && t[0] !in a
    ensures Index(a + b, t) == if Index(b, t) >= 0 then |a| + Index(b, t) else -1
  {
    var s := a + b;
    if a == "" {
      assert s == b;
    } else {
      IndexSkips(a[1..], b, t);
      assert s[0] == a[0] && s[1..] == a[1..] + b;
      assert a[0] in a;
      IndexStep(s, t);
    }
  }

  /** strings.Contains. */
  predicate Contains(s: string, t: string) { Index(s, t) >= 0 }

  // ---------- A sample text for every integer ----------

  /** A sign and as many ones as the absolute value. */
  function Tally(n: int): string { if n >= 0 then "+" + seq(n, _ => '1') else "-" + seq(-n, _ => '1') }

  function Untally(s: string): Option<int> {
    if s == "" then None
    else if s[0] == '+' then Some(|s| - 1)
    else if s[0] == '-' then Some(1 - |s|)
    else None
  }

  lemma TallyRoundTrip(n: int)
    ensures Untally(Tally(n)) == Some(n)
  {
  }
}

/** The string operations of Go's `strings` and `bytes` packages that the server relies on. */
module Text {

  /** The characters that `strings.TrimSpace` removes: Unicode White_Space. */
  predicate IsSpace(c: char) {
    || c == ' ' || c == '\t' || c == '\n' || c == '\U{0B}' || c == '\U{0C}' || c == '\r'
    || c == '\U{85}' || c == '\U{A0}' || c == '\U{1680}' || '\U{2000}' <= c <= '\U{200A}'
    || c == '\U{2028}' || c == '\U{2029}' || c == '\U{202F}' || c == '\U{205F}' || c == '\U{3000}'
  }

  predicate IsBlank(s: string) {
    forall c <- s :: IsSpace(c)
  }

  function TrimLeft(s: string): string {
    if s != "" && IsSpace(s[0]) then TrimLeft(s[1..]) else s
  }

  function TrimRight(s: string): string {
    if s != "" && IsSpace(s[|s| - 1]) then TrimRight(s[..|s| - 1]) else s
  }

  function TrimSpace(s: string): string {
    TrimRight(TrimLeft(s))
  }

  function TrimPrefix(s: string, prefix: string): string {
    if prefix <= s then s[|prefix|..] else s
  }

  function TrimSuffix(s: string, suffix: string): string {
    if |suffix| <= |s| && s[|s| - |suffix|..] == suffix then s[..|s| - |suffix|] else s
  }

  /** Case mapping, on ASCII letters. */
  function UpperChar(c: char): char {
    if 'a' <= c <= 'z' then c - 32 as char else c
  }

  function LowerChar(c: char): char {
    if 'A' <= c <= 'Z' then c + 32 as char else c
  }

  function ToUpper(s: string): (r: string)
    ensures |r| == |s| && forall i | 0 <= i < |s| :: r[i] == UpperChar(s[i])
  {
    seq(|s|, i requires 0 <= i < |s| => UpperChar(s[i]))
  }

  function ToLower(s: string): (r: string)
    ensures |r| == |s| && forall i | 0 <= i < |s| :: r[i] == LowerChar(s[i])
  {
    seq(|s|, i requires 0 <= i < |s| => LowerChar(s[i]))
  }

  predicate EqualFold(s: string, t: string) {
    ToUpper(s) == ToUpper(t)
  }

  lemma ToUpperIdempotent(s: string)
    ensures ToUpper(ToUpper(s)) == ToUpper(s)
  {
  }

  /** The first argument that is not blank, untrimmed, or "". */
  function FirstNonEmpty(s: string, t: string): string {
    if TrimSpace(s) != "" then s else if TrimSpace(t) != "" then t else ""
  }

  function Digit(d: nat): char
    requires d < 10
  {
    "0123456789"[d]
  }

  /** `%d` for a non-negative number. */
  function Decimal(n: nat): string {
    if n < 10 then [Digit(n)] else Decimal(n / 10) + [Digit(n % 10)]
  }

  lemma {:induction false} DecimalHasNoColon(n: nat)
    ensures ':' !in Decimal(n) && |Decimal(n)| > 0
  {
    if n >= 10 {
      DecimalHasNoColon(n / 10);
    }
  }

  lemma {:induction false} DecimalIsInjective(m: nat, n: nat)
    requires Decimal(m) == Decimal(n)
    ensures m == n
  {
    var dm, dn := Decimal(m), Decimal(n);
    if m >= 10 {
      DecimalHasNoColon(m / 10);
    }
    if n >= 10 {
      DecimalHasNoColon(n / 10);
    }
    if m < 10 || n < 10 {
      assert |dm| == 1 || |dn| == 1;
      assert dm[0] == dn[0];
    } else {
      assert dm[..|dm| - 1] == Decimal(m / 10) && dn[..|dn| - 1] == Decimal(n / 10);
      assert dm[|dm| - 1] == dn[|dn| - 1];
      DecimalIsInjective(m / 10, n / 10);
    }
  }

  // ---- Facts about trimming --------------------------------------------------------

  lemma {:induction false} TrimLeftSplits(s: string) returns (lead: string)
    ensures s == lead + TrimLeft(s) && IsBlank(lead)
    ensures TrimLeft(s) == "" || !IsSpace(TrimLeft(s)[0])
  {
    if s != "" && IsSpace(s[0]) {
      var rest := TrimLeftSplits(s[1..]);
      lead := [s[0]] + rest;
    } else {
      lead := "";
    }
  }

  lemma {:induction false} TrimRightSplits(s: string) returns (trail: string)
    ensures s == TrimRight(s) + trail && IsBlank(trail)
    ensures TrimRight(s) == "" || !IsSpace(TrimRight(s)[|TrimRight(s)| - 1])
  {
    if s != "" && IsSpace(s[|s| - 1]) {
      var rest := TrimRightSplits(s[..|s| - 1]);
      trail := rest + [s[|s| - 1]];
    } else {
      trail := "";
    }
  }

  /** A text is blank exactly when trimming leaves nothing. */
  lemma BlankIffTrimsToNothing(s: string)
    ensures IsBlank(s) <==> TrimSpace(s) == ""
  {
    var lead := TrimLeftSplits(s);
    var trail := TrimRightSplits(TrimLeft(s));
    var core := TrimSpace(s);
    assert s == lead + core + trail;
    if core != "" {
      assert core[0] in s && !IsSpace(core[0]) by {
        assert TrimLeft(s)[0] == core[0];
      }
    }
  }

  lemma {:induction false} TrimLeftSkipsBlank(a: string, b: string)
    requires IsBlank(a)
    ensures TrimLeft(a + b) == TrimLeft(b)
  {
    if a == "" {
      assert a + b == b;
    } else {
      assert a[0] in a && (a + b)[1..] == a[1..] + b;
      TrimLeftSkipsBlank(a[1..], b);
    }
  }

  lemma {:induction false} TrimLeftKeepsRest(a: string, b: string)
    requires !IsBlank(a)
    ensures TrimLeft(a + b) == TrimLeft(a) + b
  {
    if IsSpace(a[0]) {
      assert (a + b)[1..] == a[1..] + b;
      assert !IsBlank(a[1..]) by {
        var c :| c in a && !IsSpace(c);
        assert c in a[1..];
      }
      TrimLeftKeepsRest(a[1..], b);
    }
  }

  lemma BlankIffTrimLeftEmpties(s: string)
    ensures IsBlank(s) <==> TrimLeft(s) == ""
  {
    var lead := TrimLeftSplits(s);
    if TrimLeft(s) != "" {
      assert TrimLeft(s)[0] in s;
    } else {
      assert s == lead;
    }
  }

  lemma {:induction false} TrimRightSkipsBlank(a: string, b: string)
    requires IsBlank(b)
    ensures TrimRight(a + b) == TrimRight(a)
  {
    if b == "" {
      assert a + b == a;
    } else {
      var n := |b| - 1;
      assert b[n] in b && (a + b)[..|a + b| - 1] == a + b[..n];
      TrimRightSkipsBlank(a, b[..n]);
    }
  }

  /** A text with no blanks at its ends. */
  predicate IsTrimmed(t: string) {
    t != "" && !IsSpace(t[0]) && !IsSpace(t[|t| - 1])
  }

  lemma TrimSpaceFindsCore(lead: string, t: string, trail: string)
    requires IsBlank(lead) && IsTrimmed(t) && IsBlank(trail)
    ensures TrimSpace(lead + t + trail) == t
  {
    assert lead + t + trail == lead + (t + trail);
    TrimLeftSkipsBlank(lead, t + trail);
    TrimRightSkipsBlank(t, trail);
  }

  /** What trimming takes off: blanks around a trimmed core, when there is one. */
  lemma TrimSpaceSplits(s: string) returns (lead: string, trail: string)
    requires TrimSpace(s) != ""
    ensures s == lead + TrimSpace(s) + trail && IsBlank(lead) && IsBlank(trail) && IsTrimmed(TrimSpace(s))
  {
    lead := TrimLeftSplits(s);
    trail := TrimRightSplits(TrimLeft(s));
    assert TrimLeft(s)[0] == TrimSpace(s)[0];
  }

  lemma TrimmedStays(t: string)
    requires IsTrimmed(t)
    ensures TrimSpace(t) == t
  {
    TrimSpaceFindsCore("", t, "");
    assert "" + t + "" == t;
  }
}

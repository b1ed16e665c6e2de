/** internal/domain/pair.go: the only way a currency pair comes into being. */
module Pairs {
  import opened Domain

  datatype PairError =
    | NotInForm
    | UnsupportedCurrency(name: string)
    | SameCurrency(name: string)

  datatype Parsed = Pair(pair: string) | Invalid(error: PairError)

  const CURRENCIES: set<string> := {"USD", "EUR", "MXN"}

  /** The strings a pair can be: two different supported currencies, joined. */
  const PAIRS: set<string> :=
    set base, quote | base in CURRENCIES && quote in CURRENCIES && base != quote :: base + "/" + quote

  /** strings.ToUpper over ASCII. */
  function UpperChar(c: char): char {
    if 'a' <= c <= 'z' then c - 'a' + 'A' else c
  }

  function ToUpper(s: string): string {
    seq(|s|, i requires 0 <= i < |s| => UpperChar(s[i]))
  }

  /** Index of the first separator, or the length when there is none. */
  function Separator(s: string): (i: nat)
    ensures i <= |s|
    ensures '/' !in s[..i]
    ensures i < |s| ==> s[i] == '/'
  {
    if s == [] || s[0] == '/' then 0
    else
      var rest := Separator(s[1..]);
      assert s[..rest + 1] == [s[0]] + s[1..][..rest];
      rest + 1
  }

  /** strings.Cut: both halves are the input and nothing when it has no separator. */
  function Cut(s: string): (string, string, bool) {
    var i := Separator(s);
    if i < |s| then (s[..i], s[i + 1..], true) else (s, "", false)
  }

  function ParsePair(s: string): Parsed {
    var (base, quote, ok) := Cut(ToUpper(s));
    if !ok then Invalid(NotInForm)
    else if base !in CURRENCIES then Invalid(UnsupportedCurrency(base))
    else if quote !in CURRENCIES then Invalid(UnsupportedCurrency(quote))
    else if base == quote then Invalid(SameCurrency(base))
    else Pair(base + "/" + quote)
  }

  function Currencies(p: string): (string, string) {
    var (base, quote, _) := Cut(p);
    (base, quote)
  }

  /** A separator-free prefix is what Cut returns first. */
  lemma CutJoined(base: string, quote: string)
    requires '/' !in base
    ensures Cut(base + "/" + quote) == (base, quote, true)
  {
    var s := base + "/" + quote;
    var i := Separator(s);
    assert s[|base|] == '/';
    assert forall k | 0 <= k < i :: s[..i][k] == s[k] && s[k] != '/';
    assert forall k | 0 <= k < |base| :: s[k] == base[k] && base[k] != '/';
    assert i == |base|;
    assert s[..i] == base && s[i + 1..] == quote;
  }

  /** Currencies undoes the joining of two supported currencies. */
  lemma CurrenciesInverts(base: string, quote: string)
    requires base in CURRENCIES && quote in CURRENCIES && base != quote
    ensures Currencies(base + "/" + quote) == (base, quote)
    ensures ParsePair(base + "/" + quote) == Pair(base + "/" + quote)
  {
    CutJoined(base, quote);
    var s := base + "/" + quote;
    assert ToUpper(s) == s;
  }

  /** Every pair is the join of its own two, different, supported currencies. */
  lemma PairSplits(p: string)
    requires p in PAIRS
    ensures var (base, quote) := Currencies(p);
            base in CURRENCIES && quote in CURRENCIES && base != quote && p == base + "/" + quote
  {
    var base, quote :| base in CURRENCIES && quote in CURRENCIES && base != quote && p == base + "/" + quote;
    CutJoined(base, quote);
  }

  /** Code points 97 to 122 are the letters a to z, and 32 less their capitals. */
  predicate IsSmall(c: char) { 97 <= c as int <= 122 }

  predicate SameLetter(c: char, d: char) {
    || c == d
    || (IsSmall(c) && d as int == c as int - 32)
    || (IsSmall(d) && c as int == d as int - 32)
  }

  /** Equal up to the case of ASCII letters. */
  predicate SameText(s: string, t: string) {
    |s| == |t| && forall i | 0 <= i < |s| :: SameLetter(s[i], t[i])
  }

  /** u is s with its small ASCII letters turned into capitals. */
  predicate IsUpperOf(u: string, s: string) {
    && |u| == |s|
    && forall i | 0 <= i < |s| :: u[i] as int == if IsSmall(s[i]) then s[i] as int - 32 else s[i] as int
  }

  lemma ToUpperIsUpper(s: string, t: string)
    ensures IsUpperOf(ToUpper(s), s)
    ensures IsUpperOf(t, s) ==> t == ToUpper(s)
  {
    var u := ToUpper(s);
    if IsUpperOf(t, s) {
      assert forall i | 0 <= i < |s| :: t[i] == u[i];
    }
  }

  lemma ToUpperForgetsCase(s: string, t: string)
    ensures ToUpper(s) == ToUpper(t) <==> SameText(s, t)
  {
    var u, v := ToUpper(s), ToUpper(t);
    if SameText(s, t) {
      forall i | 0 <= i < |s|
        ensures u[i] == v[i]
      {
        assert SameLetter(s[i], t[i]);
      }
    }
    if u == v {
      forall i | 0 <= i < |s|
        ensures SameLetter(s[i], t[i])
      {
        assert u[i] == v[i];
      }
    }
  }

  /** A pair holds no small letter. */
  lemma PairIsUpper(p: string)
    requires p in PAIRS
    ensures ToUpper(p) == p
  {
    var base, quote :| base in CURRENCIES && quote in CURRENCIES && base != quote && p == base + "/" + quote;
  }

  lemma AcceptsUpper(s: string)
    ensures ParsePair(s).Pair? <==> ToUpper(s) in PAIRS
    ensures ParsePair(s).Pair? ==> ParsePair(s).pair == ToUpper(s)
  {
    var u := ToUpper(s);
    if ParsePair(s).Pair? {
      var (base, quote, ok) := Cut(u);
      assert u == base + "/" + quote;
    }
    if u in PAIRS {
      PairSplits(u);
      var (b, q) := Currencies(u);
      CutJoined(b, q);
    }
  }

  /** The parser answers with a pair if and only if the input is that pair up to
      the case of its letters. */
  lemma ParsePairAccepts(s: string, p: string)
    ensures ParsePair(s) == Pair(p) <==> p in PAIRS && SameText(s, p)
  {
    AcceptsUpper(s);
    ToUpperForgetsCase(s, p);
    if p in PAIRS {
      PairIsUpper(p);
    }
    if ToUpper(s) in PAIRS {
      PairIsUpper(ToUpper(s));
    }
  }

  /** Letter case never matters, and parsing a parsed pair changes nothing. */
  lemma ParsePairNormalises(s: string, t: string)
    ensures SameText(s, t) ==> ParsePair(s) == ParsePair(t)
    ensures ParsePair(s).Pair? ==> ParsePair(ParsePair(s).pair) == ParsePair(s)
    ensures ParsePair(s).Pair? ==>
              var (base, quote) := Currencies(ParsePair(s).pair); ParsePair(s).pair == base + "/" + quote
  {
    ToUpperForgetsCase(s, t);
    AcceptsUpper(s);
    if ParsePair(s).Pair? {
      var p := ParsePair(s).pair;
      PairSplits(p);
      var (base, quote) := Currencies(p);
      CurrenciesInverts(base, quote);
    }
  }

  /** Which refusal an input gets, in the order the checks are made; the
      currencies are named in capitals. */
  lemma ParsePairRefuses(s: string, base: string, quote: string)
    ensures ParsePair(s) == Invalid(NotInForm) <==> '/' !in s
    ensures IsUpperOf(base + "/" + quote, s) && '/' !in base ==>
              ParsePair(s) ==
              if base !in CURRENCIES then Invalid(UnsupportedCurrency(base))
              else if quote !in CURRENCIES then Invalid(UnsupportedCurrency(quote))
              else if base == quote then Invalid(SameCurrency(base))
              else Pair(base + "/" + quote)
  {
    var u := ToUpper(s);
    assert u[..|u|] == u;
    assert forall i | 0 <= i < |s| :: u[i] == '/' <==> s[i] == '/';
    ToUpperIsUpper(s, base + "/" + quote);
    if '/' !in base {
      CutJoined(base, quote);
    }
  }

  /** These are the pairs. */
  lemma PairsAre()
    ensures PAIRS == {"USD/EUR", "USD/MXN", "EUR/USD", "EUR/MXN", "MXN/USD", "MXN/EUR"}
  {
    assert "USD" + "/" + "EUR" == "USD/EUR" && "USD" + "/" + "MXN" == "USD/MXN";
    assert "EUR" + "/" + "USD" == "EUR/USD" && "EUR" + "/" + "MXN" == "EUR/MXN";
    assert "MXN" + "/" + "USD" == "MXN/USD" && "MXN" + "/" + "EUR" == "MXN/EUR";
    forall p | p in PAIRS
      ensures p in {"USD/EUR", "USD/MXN", "EUR/USD", "EUR/MXN", "MXN/USD", "MXN/EUR"}
    {
      PairSplits(p);
    }
  }

  /** Three currencies make six pairs. */
  lemma SixPairs()
    ensures |PAIRS| == 6
  {
    var six: seq<(string, string)> :=
      [("USD", "EUR"), ("USD", "MXN"), ("EUR", "USD"), ("EUR", "MXN"), ("MXN", "USD"), ("MXN", "EUR")];
    var joined := set i | 0 <= i < |six| :: Joined(six[i]);
    forall p | p in PAIRS
      ensures p in joined
    {
      PairSplits(p);
      assert Currencies(p) in six;
    }
    forall p | p in joined
      ensures p in PAIRS
    {
    }
    assert PAIRS == joined;
    JoinedCount(six, |six|);
  }

  function Joined(c: (string, string)): string { c.0 + "/" + c.1 }

  lemma {:induction false} JoinedCount(cs: seq<(string, string)>, n: nat)
    requires n <= |cs|
    requires forall i | 0 <= i < |cs| :: '/' !in cs[i].0
    requires forall i, j | 0 <= i < j < |cs| :: cs[i] != cs[j]
    ensures |set i | 0 <= i < n :: Joined(cs[i])| == n
  {
    var all := set i | 0 <= i < n :: Joined(cs[i]);
    if n > 0 {
      JoinedCount(cs, n - 1);
      var fewer := set i | 0 <= i < n - 1 :: Joined(cs[i]);
      assert all == fewer + {Joined(cs[n - 1])};
      if Joined(cs[n - 1]) in fewer {
        var i :| 0 <= i < n - 1 && Joined(cs[i]) == Joined(cs[n - 1]);
        CutJoined(cs[i].0, cs[i].1);
        CutJoined(cs[n - 1].0, cs[n - 1].1);
        assert false;
      }
    }
  }
}

/** `translate_qmark_placeholders`: `?` outside string literals becomes `%s`. */
module Placeholders {

  /** How many single quotes a text contains. */
  function Quotes(s: string): nat {
    if s == [] then 0 else Quotes(s[..|s| - 1]) + if s[|s| - 1] == '\'' then 1 else 0
  }

  /** Position `i` is a placeholder: a `?` with an even number of quotes before it. */
  predicate IsPlaceholder(s: string, i: nat)
    requires i < |s|
  {
    s[i] == '?' && Quotes(s[..i]) % 2 == 0
  }

  /** The rewriting, defined by quote parity alone. */
  function Rewritten(s: string): string {
    if s == [] then []
    else
      var n := |s| - 1;
      Rewritten(s[..n]) + if IsPlaceholder(s, n) then "%s" else [s[n]]
  }

  /** How many placeholders a text contains. */
  function Placeholders(s: string): nat {
    if s == [] then 0 else Placeholders(s[..|s| - 1]) + if IsPlaceholder(s, |s| - 1) then 1 else 0
  }

  lemma Step(s: string, i: nat)
    requires i < |s|
    ensures Quotes(s[..i + 1]) == Quotes(s[..i]) + if s[i] == '\'' then 1 else 0
    ensures Rewritten(s[..i + 1]) == Rewritten(s[..i]) + if IsPlaceholder(s, i) then "%s" else [s[i]]
    ensures Placeholders(s[..i + 1]) == Placeholders(s[..i]) + if IsPlaceholder(s, i) then 1 else 0
  {
    assert s[..i + 1][..i] == s[..i];
  }

  lemma {:induction false} NothingToRewrite(s: string)
    requires '?' !in s
    ensures Rewritten(s) == s
  {
    if s != [] {
      var n := |s| - 1;
      NothingToRewrite(s[..n]);
      assert s == s[..n] + [s[n]];
    }
  }

  /** The scanner, with its look-ahead for doubled quotes inside a literal, computes the
      parity rewriting. */
  method TranslateQmarkPlaceholders(sql: string) returns (r: string)
    ensures r == Rewritten(sql)
  {
    if '?' !in sql {
      NothingToRewrite(sql);
      return sql;
    }
    r := "";
    var inString := false;
    var i, n := 0, |sql|;
    while i < n
      invariant i <= n && r == Rewritten(sql[..i])
      invariant inString == (Quotes(sql[..i]) % 2 == 1)
    {
      var ch := sql[i];
      Step(sql, i);
      if inString {
        if ch == '\'' {
          if i + 1 < n && sql[i + 1] == '\'' {
            Step(sql, i + 1);
            r := r + "''";
            i := i + 2;
            continue;
          }
          inString := false;
        }
        r := r + [ch];
      } else if ch == '\'' {
        inString := true;
        r := r + [ch];
      } else if ch == '?' {
        r := r + "%s";
      } else {
        r := r + [ch];
      }
      i := i + 1;
    }
    assert sql[..n] == sql;
  }

  /** Where position `i` of the input ends up. */
  function Offset(s: string, i: nat): nat
    requires i <= |s|
  {
    i + Placeholders(s[..i])
  }

  lemma {:induction false} RewrittenLength(s: string)
    ensures |Rewritten(s)| == |s| + Placeholders(s)
  {
    if s != [] {
      RewrittenLength(s[..|s| - 1]);
    }
  }

  lemma {:induction false} RewrittenPrefix(s: string, i: nat)
    requires i <= |s|
    ensures Rewritten(s[..i]) <= Rewritten(s)
    ensures Offset(s, i) == |Rewritten(s[..i])|
    decreases |s| - i
  {
    RewrittenLength(s[..i]);
    if i < |s| {
      Step(s, i);
      RewrittenPrefix(s, i + 1);
    } else {
      assert s[..i] == s;
    }
  }

  /** The output character by character: at its place, every character of the input stands
      unchanged or, exactly when it is a placeholder, as `%s`; nothing else is in between. */
  lemma EveryCharacter(s: string, i: nat)
    requires i < |s|
    ensures var r, at := Rewritten(s), Offset(s, i);
            if IsPlaceholder(s, i) then
              at + 2 == Offset(s, i + 1) <= |r| && r[at] == '%' && r[at + 1] == 's'
            else
              at + 1 == Offset(s, i + 1) <= |r| && r[at] == s[i]
    ensures Offset(s, 0) == 0 && Offset(s, |s|) == |Rewritten(s)|
  {
    RewrittenPrefix(s, i);
    RewrittenPrefix(s, i + 1);
    RewrittenPrefix(s, |s|);
    assert s[..|s|] == s;
    Step(s, i);
  }

  lemma {:induction false} QuotesAppended(s: string, t: string)
    ensures Quotes(s + t) == Quotes(s) + Quotes(t)
  {
    if t == [] {
      assert s + t == s;
    } else {
      QuotesAppended(s, t[..|t| - 1]);
      assert (s + t)[..|s + t| - 1] == s + t[..|t| - 1];
    }
  }

  /** Rewriting touches no quote, and leaves no placeholder. */
  lemma {:induction false} NoPlaceholderLeft(s: string)
    ensures Quotes(Rewritten(s)) == Quotes(s)
    ensures Placeholders(Rewritten(s)) == 0
  {
    if s != [] {
      var n := |s| - 1;
      var before := Rewritten(s[..n]);
      NoPlaceholderLeft(s[..n]);
      if IsPlaceholder(s, n) {
        AppendPlain(before, '%');
        AppendPlain(before + "%", 's');
        assert before + "%s" == before + "%" + "s";
      } else {
        AppendPlain(before, s[n]);
      }
    }
  }

  lemma AppendPlain(s: string, c: char)
    requires c != '?' || Quotes(s) % 2 == 1
    ensures Quotes(s + [c]) == Quotes(s) + if c == '\'' then 1 else 0
    ensures Placeholders(s + [c]) == Placeholders(s)
  {
  }

  /** Rewriting twice is rewriting once. */
  lemma RewritingTwice(s: string)
    ensures Rewritten(Rewritten(s)) == Rewritten(s)
    ensures Rewritten(s) == s <==> Placeholders(s) == 0
  {
    NoPlaceholderLeft(s);
    Untouched(Rewritten(s));
    RewrittenLength(s);
    if Placeholders(s) == 0 {
      Untouched(s);
    }
  }

  lemma {:induction false} Untouched(s: string)
    requires Placeholders(s) == 0
    ensures Rewritten(s) == s
  {
    if s != [] {
      var n := |s| - 1;
      Untouched(s[..n]);
      assert s == s[..n] + [s[n]];
    }
  }
}

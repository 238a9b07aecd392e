/**
 Split tunnelling (`split.ts`): the matcher, and the loop of the emitted PAC script, which must
 decide alike. Lower-casing is one function given from outside; a host below is a lower-cased
 one.
 */
module SplitTunnel {

  predicate EndsWith(s: string, suffix: string) {
    |suffix| <= |s| && s[|s| - |suffix|..] == suffix
  }

  // ---- the matcher ---------------------------------------------------------------------------

  predicate MatchesRule(host: string, rule: string) {
    if rule == "*" then true
    else if "*." <= rule then EndsWith(host, rule[1..])
    else if "." <= rule then EndsWith(host, rule)
    else host == rule || EndsWith(host, "." + rule)
  }

  predicate IsLoopback(host: string) {
    host == "localhost" || EndsWith(host, ".localhost") || host == "127.0.0.1" || host == "[::1]"
  }

  datatype Mode = All | Bypass | Only

  predicate ShouldTunnel(lower: string -> string, host: string, mode: Mode, rules: seq<string>) {
    && !IsLoopback(lower(host))
    && var matched := exists i :: 0 <= i < |rules| && MatchesRule(lower(host), lower(rules[i]));
       match mode
       case Bypass => !matched
       case Only => matched
       case All => true
  }

  // ---- the emitted loop --------------------------------------------------------------------------

  /** `s.slice(-n)`: the last n characters, all of them when there are fewer or when n is 0. */
  function LastChars(s: string, n: nat): string {
    if n == 0 || n >= |s| then s else s[|s| - n..]
  }

  predicate FirstIs(s: string, c: char) {
    |s| > 0 && s[0] == c
  }

  predicate PacLoopback(host: string) {
    host == "localhost" || EndsWith(host, ".localhost") || host == "127.0.0.1" || host == "::1"
  }

  /** What one turn of the loop finds. */
  predicate PacRule(host: string, rule: string) {
    if rule == "*" then true
    else
      var r := if FirstIs(rule, '*') then rule[1..] else rule;
      if FirstIs(r, '.') then LastChars(host, |r|) == r
      else host == r || LastChars(host, |r| + 1) == "." + r
  }

  /** `FindProxyForURL` of an only-mode script: whether it answers with the proxy. */
  method FindProxyForUrl(lower: string -> string, host: string, rules: seq<string>) returns (proxy: bool)
    ensures proxy == PacTunnels(lower, host, rules)
  {
    var h := lower(host);
    if h == "localhost" || EndsWith(h, ".localhost") || h == "127.0.0.1" || h == "::1" {
      return false;
    }
    var matched := false;
    for i := 0 to |rules|
      invariant !matched && forall k :: 0 <= k < i ==> !PacRule(h, lower(rules[k]))
    {
      var r := lower(rules[i]);
      if r == "*" {
        matched := true;
        assert PacRule(h, lower(rules[i]));
        break;
      }
      if FirstIs(r, '*') {
        r := r[1..];
      }
      if FirstIs(r, '.') {
        if LastChars(h, |r|) == r {
          matched := true;
          assert PacRule(h, lower(rules[i]));
          break;
        }
        continue;
      }
      if h == r || LastChars(h, |r| + 1) == "." + r {
        matched := true;
        assert PacRule(h, lower(rules[i]));
        break;
      }
    }
    return matched;
  }

  ghost predicate PacTunnels(lower: string -> string, host: string, rules: seq<string>) {
    !PacLoopback(lower(host)) && exists i :: 0 <= i < |rules| && PacRule(lower(host), lower(rules[i]))
  }

  // ---- they decide alike ----------------------------------------------------------------------------

  /** A rule outside the documented forms: a star with something other than a dot after it. */
  predicate Starred(rule: string) {
    |rule| > 1 && rule[0] == '*' && rule[1] != '.'
  }

  lemma LastCharsIsEndsWith(s: string, suffix: string)
    requires suffix != []
    ensures LastChars(s, |suffix|) == suffix <==> EndsWith(s, suffix)
  {
    if |suffix| == |s| { assert s[0..] == s; }
  }

  lemma DottedRulesAgree(host: string, rule: string)
    requires FirstIs(rule, '.')
    ensures PacRule(host, rule) <==> MatchesRule(host, rule)
  {
    LastCharsIsEndsWith(host, rule);
  }

  lemma StarredRulesAgree(host: string, rule: string)
    requires |rule| > 1 && rule[0] == '*' && rule[1] == '.'
    ensures PacRule(host, rule) <==> MatchesRule(host, rule)
  {
    LastCharsIsEndsWith(host, rule[1..]);
    assert "*." <= rule;
  }

  lemma NamesAgree(host: string, rule: string)
    requires !FirstIs(rule, '*') && !FirstIs(rule, '.')
    ensures PacRule(host, rule) <==> MatchesRule(host, rule)
  {
    var below := "." + rule;
    LastCharsIsEndsWith(host, below);
    NamesMatchPlainly(host, rule);
    assert PacRule(host, rule) <==> host == rule || LastChars(host, |below|) == below;
  }

  lemma NamesMatchPlainly(host: string, rule: string)
    requires !FirstIs(rule, '*') && !FirstIs(rule, '.')
    ensures MatchesRule(host, rule) <==> host == rule || EndsWith(host, "." + rule)
  {
    if rule != [] { assert rule[0] != '*' && rule[0] != '.'; }
  }

  lemma PlainRulesAgree(host: string, rule: string)
    requires !Starred(rule)
    ensures PacRule(host, rule) <==> MatchesRule(host, rule)
  {
    if FirstIs(rule, '.') {
      DottedRulesAgree(host, rule);
    } else if !FirstIs(rule, '*') {
      NamesAgree(host, rule);
    } else if |rule| > 1 {
      StarredRulesAgree(host, rule);
    } else {
      assert rule == "*";
    }
  }

  /**
   The script and the matcher agree on a rule for every host exactly when it is not a bare star
   in front of a name.
   */
  lemma RuleAgreesExactlyWhenPlain(rule: string)
    ensures (forall host :: PacRule(host, rule) <==> MatchesRule(host, rule)) <==> !Starred(rule)
  {
    if !Starred(rule) {
      forall host ensures PacRule(host, rule) <==> MatchesRule(host, rule) {
        PlainRulesAgree(host, rule);
      }
    } else {
      var name := rule[1..];
      assert PacRule(name, rule);
      assert !MatchesRule(name, rule);
    }
  }

  /** The two spellings of the IPv6 loopback, of which each side knows one. */
  predicate Ipv6Loopback(host: string) {
    host == "[::1]" || host == "::1"
  }

  /**
   In only mode, with rules of the documented forms, the script sends a host to the proxy
   exactly when the matcher says to tunnel it, but for an IPv6 loopback some rule matches.
   */
  lemma ScriptDecidesLikeMatcher(lower: string -> string, host: string, rules: seq<string>)
    requires forall i :: 0 <= i < |rules| ==> !Starred(lower(rules[i]))
    ensures (PacTunnels(lower, host, rules) <==> ShouldTunnel(lower, host, Only, rules)) <==>
              !(Ipv6Loopback(lower(host)) && exists i :: 0 <= i < |rules| && MatchesRule(lower(host), lower(rules[i])))
  {
    var h := lower(host);
    forall i | 0 <= i < |rules| ensures PacRule(h, lower(rules[i])) <==> MatchesRule(h, lower(rules[i])) {
      PlainRulesAgree(h, lower(rules[i]));
    }
    SpellingsApart(h);
  }

  /** But for the two spellings, both sides know the same loopback names. */
  lemma SpellingsApart(host: string)
    ensures host == "[::1]" ==> IsLoopback(host) && !PacLoopback(host)
    ensures host == "::1" ==> !IsLoopback(host) && PacLoopback(host)
    ensures !Ipv6Loopback(host) ==> (IsLoopback(host) <==> PacLoopback(host))
  {
    assert |".localhost"| == 10;
  }

  /** A rule and two hosts on which the two sides differ. */
  lemma TheyDiffer(lower: string -> string)
    requires lower("*example.com") == "*example.com" && lower("example.com") == "example.com" && lower("*") == "*"
    requires lower("::1") == "::1" && lower("[::1]") == "[::1]"
    ensures PacTunnels(lower, "example.com", ["*example.com"])
    ensures !ShouldTunnel(lower, "example.com", Only, ["*example.com"])
    ensures !PacTunnels(lower, "::1", ["*"]) && ShouldTunnel(lower, "::1", Only, ["*"])
    ensures PacTunnels(lower, "[::1]", ["*"]) && !ShouldTunnel(lower, "[::1]", Only, ["*"])
  {
    var star, all := ["*example.com"], ["*"];
    assert lower(star[0])[1..] == "example.com";
    assert PacRule("example.com", lower(star[0])) && !MatchesRule("example.com", lower(star[0]));
    assert !PacLoopback("example.com") by {
      var tail := "example.com"[1..];
      assert tail[0] == 'x' && ".localhost"[0] == '.';
    }
    assert PacRule("::1", lower(all[0])) && MatchesRule("::1", lower(all[0]));
    assert PacRule("[::1]", lower(all[0]));
    SpellingsApart("::1");
    SpellingsApart("[::1]");
  }

  // ---- what a rule means ------------------------------------------------------------------------

  /** `host` is a name below `domain`. */
  ghost predicate Below(host: string, domain: string) {
    exists front: string :: host == front + "." + domain
  }

  lemma BelowEndsWith(host: string, domain: string)
    ensures Below(host, domain) <==> EndsWith(host, "." + domain)
  {
    if EndsWith(host, "." + domain) {
      var front := host[..|host| - |domain| - 1];
      assert host == front + ("." + domain) == front + "." + domain;
    }
    if front: string :| host == front + "." + domain {
      assert front + "." + domain == front + ("." + domain);
      assert host[|front|..] == "." + domain;
    }
  }

  /**
   The documented forms: a star is every host; a name is itself and every name below it; a name
   behind a dot, with or without a star, is every name below it and not itself.
   */
  lemma RulesMean(host: string, domain: string)
    ensures MatchesRule(host, "*")
    ensures MatchesRule(host, "*." + domain) <==> Below(host, domain)
    ensures MatchesRule(host, "." + domain) <==> Below(host, domain)
    ensures domain != "*" && (domain == [] || (domain[0] != '.' && domain[0] != '*')) ==>
              (MatchesRule(host, domain) <==> host == domain || Below(host, domain))
  {
    BelowEndsWith(host, domain);
    var starred := "*." + domain;
    assert starred[0] == '*' && starred[1] == '.' && starred[1..] == "." + domain;
    assert "*." <= starred && starred != "*";
    var dotted := "." + domain;
    assert dotted[0] == '.' && "." <= dotted;
  }

  /**
   The modes: this machine is never tunnelled; everything else is by `all`, what a rule matches by
   `only`, and exactly what `only` would leave by `bypass`.
   */
  lemma ModesMean(lower: string -> string, host: string, rules: seq<string>)
    ensures forall mode :: IsLoopback(lower(host)) ==> !ShouldTunnel(lower, host, mode, rules)
    ensures !IsLoopback(lower(host)) ==> ShouldTunnel(lower, host, All, rules)
    ensures !IsLoopback(lower(host)) ==>
              (ShouldTunnel(lower, host, Only, rules) <==> exists r :: r in rules && MatchesRule(lower(host), lower(r)))
    ensures !IsLoopback(lower(host)) ==>
              (ShouldTunnel(lower, host, Bypass, rules) <==> !ShouldTunnel(lower, host, Only, rules))
  {
    if r :| r in rules && MatchesRule(lower(host), lower(r)) {
      var i :| 0 <= i < |rules| && rules[i] == r;
      assert MatchesRule(lower(host), lower(rules[i]));
    }
    if i :| 0 <= i < |rules| && MatchesRule(lower(host), lower(rules[i])) {
      assert rules[i] in rules;
    }
  }
}

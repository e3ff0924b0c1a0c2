/**
 Identifier syntax: composite rule IDs `module|KEY`, the `.report` suffix of v1 modules, the
 rule-hit CSV and the request IDs. Validators, printers and parsers that must undo each other.
 */
module Identifiers {
  import opened Sequences

  type RuleID = string
  type ErrorKey = string
  type ClusterName = string

  const DOT_REPORT := ".report"

  /** The class `[a-zA-Z_0-9.]` shared by every rule-ID expression in the service. */
  predicate IdChar(c: char)
  {
    'a' <= c <= 'z' || 'A' <= c <= 'Z' || '0' <= c <= '9' || c == '_' || c == '.'
  }

  /** The expression `^[a-zA-Z_0-9.]+$`. */
  predicate ValidPart(s: string)
  {
    s != "" && forall i :: 0 <= i < |s| ==> IdChar(s[i])
  }

  /** The expression `^([a-zA-Z_0-9.]+)[|]([a-zA-Z_0-9.]+)$` of the router and of the Redis reader. */
  predicate MatchesComposite(s: string)
  {
    exists i :: 0 <= i < |s| && s[i] == '|' && ValidPart(s[..i]) && ValidPart(s[i + 1..])
  }

  /** The expression `^[a-zA-Z0-9]+$` of `ValidateRequestID`. */
  predicate ValidRequestID(s: string)
  {
    s != "" && forall i :: 0 <= i < |s| ==> IdChar(s[i]) && s[i] != '_' && s[i] != '.'
  }

  /** Go's `strings.Split` for a one-character separator. */
  function Split(s: string, sep: char): (parts: seq<string>)
    ensures parts != []
    ensures sep !in s ==> parts == [s]
  {
    if s == "" then [""] else
      assert s == [s[0]] + s[1..];
      var rest := Split(s[1..], sep);
      if s[0] == sep then [""] + rest else [[s[0]] + rest[0]] + rest[1..]
  }

  /** Go's `strings.Join` for a one-character separator. */
  function Join(parts: seq<string>, sep: char): string
  {
    if parts == [] then "" else if |parts| == 1 then parts[0] else parts[0] + [sep] + Join(parts[1..], sep)
  }

  /** Go's `strings.HasSuffix`. */
  predicate HasSuffix(s: string, suffix: string)
  {
    |suffix| <= |s| && s[|s| - |suffix|..] == suffix
  }

  /** Go's `strings.TrimSuffix`: removes one occurrence. */
  function TrimSuffix(s: string, suffix: string): string
  {
    if HasSuffix(s, suffix) then s[..|s| - |suffix|] else s
  }

  function Composite(ruleModule: string, key: ErrorKey): RuleID
  {
    ruleModule + "|" + key
  }

  /** The library generator: both parts are validated; a failure yields no ID. */
  function GenerateCompositeRuleID(ruleModule: string, key: ErrorKey): (r: Option<RuleID>)
  {
    if ValidPart(ruleModule) && ValidPart(key) then Some(Composite(ruleModule, key)) else None
  }

  /** `RuleIDWithErrorKeyFromCompositeRuleID`: split, then validate each part. */
  function ParseComposite(id: RuleID): (r: Option<(string, ErrorKey)>)
  {
    var parts := Split(id, '|');
    if |parts| != 2 then None
    else if ValidPart(parts[0]) && ValidPart(parts[1]) then Some((parts[0], parts[1]))
    else None
  }

  lemma {:induction false} SplitPrefix(head: string, tail: string, sep: char)
    requires sep !in head
    ensures Split(head + [sep] + tail, sep) == [head] + Split(tail, sep)
  {
    var s := head + [sep] + tail;
    if head == "" {
      assert s[1..] == tail;
    } else {
      assert s[1..] == head[1..] + [sep] + tail;
      SplitPrefix(head[1..], tail, sep);
      assert Split(s[1..], sep)[1..] == Split(tail, sep);
      assert head == [s[0]] + head[1..];
    }
  }

  lemma JoinCons(first: string, rest: seq<string>, sep: char)
    requires rest != []
    ensures Join([first] + rest, sep) == first + [sep] + Join(rest, sep)
  {
    assert ([first] + rest)[1..] == rest;
  }

  /** Extending the first part extends the join. */
  lemma JoinPrepend(c: char, parts: seq<string>, sep: char)
    requires parts != []
    ensures Join([[c] + parts[0]] + parts[1..], sep) == [c] + Join(parts, sep)
  {
    if |parts| > 1 {
      JoinCons([c] + parts[0], parts[1..], sep);
      assert [c] + (parts[0] + [sep] + Join(parts[1..], sep)) == [c] + parts[0] + [sep] + Join(parts[1..], sep);
    }
  }

  lemma {:induction false} JoinAfterSplit(s: string, sep: char)
    ensures Join(Split(s, sep), sep) == s
  {
    if s != "" {
      JoinAfterSplit(s[1..], sep);
      var rest := Split(s[1..], sep);
      assert s == [s[0]] + s[1..];
      if s[0] == sep {
        JoinCons("", rest, sep);
      } else {
        JoinPrepend(s[0], rest, sep);
      }
    }
  }

  lemma {:induction false} SplitPartsAreClean(s: string, sep: char)
    ensures forall p :: p in Split(s, sep) ==> sep !in p
  {
    if s != "" {
      SplitPartsAreClean(s[1..], sep);
      var rest := Split(s[1..], sep);
      assert rest[0] in rest;
    }
  }

  lemma {:induction false} SplitAfterJoin(parts: seq<string>, sep: char)
    requires parts != []
    requires forall p :: p in parts ==> sep !in p
    ensures Split(Join(parts, sep), sep) == parts
  {
    if |parts| > 1 {
      SplitPrefix(parts[0], Join(parts[1..], sep), sep);
      SplitAfterJoin(parts[1..], sep);
      assert parts == [parts[0]] + parts[1..];
    }
  }

  /** The part after the last separator is the last component of the split. */
  lemma {:induction false} SplitLast(s: string, sep: char, tail: string)
    requires sep !in tail
    ensures var parts := Split(s + [sep] + tail, sep); parts[|parts| - 1] == tail
  {
    var whole := s + [sep] + tail;
    if s == "" {
      SplitPrefix("", tail, sep);
      assert whole == "" + [sep] + tail;
    } else {
      assert whole[1..] == s[1..] + [sep] + tail;
      SplitLast(s[1..], sep, tail);
      var rest := Split(whole[1..], sep);
      if |rest| == 1 {
        JoinAfterSplit(whole[1..], sep);
        assert false;
      }
    }
  }

  lemma ValidPartHasNoBar(s: string)
    requires ValidPart(s)
    ensures '|' !in s && ',' !in s
  {
    assert !IdChar('|') && !IdChar(',');
  }

  /** Printing then parsing gives the parts back, and only well-formed parts parse at all. */
  lemma ParsePrintRoundTrip(id: RuleID, ruleModule: string, key: ErrorKey)
    ensures ParseComposite(id) == Some((ruleModule, key))
       <==> GenerateCompositeRuleID(ruleModule, key) == Some(id)
  {
    if ParseComposite(id) == Some((ruleModule, key)) {
      JoinAfterSplit(id, '|');
      assert Split(id, '|')[1..] == [key];
      assert id == Composite(ruleModule, key);
    }
    if GenerateCompositeRuleID(ruleModule, key) == Some(id) {
      ValidPartHasNoBar(ruleModule);
      ValidPartHasNoBar(key);
      assert [ruleModule, key][1..] == [key];
      SplitAfterJoin([ruleModule, key], '|');
    }
  }

  /** The router expression, the Redis expression and the split-based parser accept one language. */
  lemma AcceptorsAgree(id: RuleID)
    ensures MatchesComposite(id) <==> ParseComposite(id).Some?
    ensures MatchesComposite(id) <==> exists m, k :: GenerateCompositeRuleID(m, k) == Some(id)
  {
    if MatchesComposite(id) {
      var i :| 0 <= i < |id| && id[i] == '|' && ValidPart(id[..i]) && ValidPart(id[i + 1..]);
      assert id == Composite(id[..i], id[i + 1..]);
      ParsePrintRoundTrip(id, id[..i], id[i + 1..]);
    }
    if m, k :| GenerateCompositeRuleID(m, k) == Some(id) {
      ParsePrintRoundTrip(id, m, k);
      assert id[..|m|] == m && id[|m| + 1..] == k && id[|m|] == '|';
    }
    if ParseComposite(id).Some? {
      ParsePrintRoundTrip(id, ParseComposite(id).value.0, ParseComposite(id).value.1);
    }
  }

  /** One composite ID names one (module, key) pair. */
  lemma CompositeInjective(m: string, k: ErrorKey, m': string, k': ErrorKey)
    requires ValidPart(m) && ValidPart(k) && ValidPart(m') && ValidPart(k')
    ensures Composite(m, k) == Composite(m', k') <==> m == m' && k == k'
  {
    ParsePrintRoundTrip(Composite(m, k), m, k);
    ParsePrintRoundTrip(Composite(m', k'), m', k');
  }

  /** No other parts print to the ID of a valid pair, not even invalid ones. */
  lemma CompositeUnique(m: string, k: ErrorKey, m': string, k': ErrorKey)
    requires ValidPart(m') && ValidPart(k') && Composite(m, k) == Composite(m', k')
    ensures m == m' && k == k'
  {
    var id := Composite(m', k');
    ValidPartHasNoBar(m');
    ValidPartHasNoBar(k');
    assert forall i :: 0 <= i < |id| && i != |m'| ==> id[i] == (if i < |m'| then m'[i] else k'[i - |m'| - 1]);
    assert id[|m|] == '|';
    assert id[..|m|] == m && id[|m| + 1..] == k && id[..|m'|] == m' && id[|m'| + 1..] == k';
  }

  /** A v1 module `m.report` and its plain form `m` are the same module once trimmed. */
  lemma TrimReport(m: string)
    ensures TrimSuffix(m + DOT_REPORT, DOT_REPORT) == m
    ensures !HasSuffix(m, DOT_REPORT) ==> TrimSuffix(m, DOT_REPORT) == m
  {
    var s := m + DOT_REPORT;
    assert s[|s| - |DOT_REPORT|..] == DOT_REPORT && s[..|s| - |DOT_REPORT|] == m;
  }

  predicate Internal(ruleModule: string)
  {
    var parts := Split(ruleModule, '.');
    |parts| > 1 && (parts[1] == "internal" || parts[1] == "ocs")
  }

  lemma FirstPart(word: string, rest: string, sep: char)
    requires sep !in word && (rest == "" || rest[0] == sep)
    ensures Split(word + rest, sep)[0] == word
  {
    if rest == "" {
      assert word + rest == word;
    } else {
      assert word + rest == word + [sep] + rest[1..];
      SplitPrefix(word, rest[1..], sep);
    }
  }

  lemma SecondPart(head: string, tail: string, sep: char)
    requires sep !in head
    ensures var parts := Split(head + [sep] + tail, sep); |parts| > 1 && parts[1] == Split(tail, sep)[0]
  {
    SplitPrefix(head, tail, sep);
  }

  /** A module is internal iff it has a second dot-separated part and that is `internal` or `ocs`. */
  lemma InternalIff(head: string, word: string, rest: string)
    requires '.' !in head && '.' !in word && (rest == "" || rest[0] == '.')
    ensures Internal(head + ['.'] + (word + rest)) <==> word == "internal" || word == "ocs"
    ensures !Internal(head)
  {
    SecondPart(head, word + rest, '.');
    FirstPart(word, rest, '.');
  }
}

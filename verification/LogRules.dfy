/** The include/exclude rules of dsme/logging.c: a list of glob rules, newest
    first, and a cache from "file:function" keys to evaluation results. Glob
    matching itself is a parameter. */
module LogRules {

  datatype State = Unknown | Included | Excluded | Default

  datatype Rule = Rule(pattern: string, state: State)

  datatype Option<+T> = None | Some(value: T)

  const KEY_SIZE: nat := 256

  /** snprintf(key, sizeof key, "%s:%s", file, func): at most 255 characters. */
  function Key(file: string, func: string): string {
    var full := file + ":" + func;
    if |full| < KEY_SIZE then full else full[..KEY_SIZE - 1]
  }

  function PrioCap(prio: int): int {
    if prio < 0 then 0 else if prio > 7 then 7 else prio
  }

  // ----- reference: the history of configuration calls decides

  datatype Config =
    | Add(pattern: string, state: State)
    | Clear
    | Verbosity(level: int)
    | Lookup(prio: int, file: Option<string>, func: Option<string>)

  /** The newest rule added since the last clear whose pattern matches `key`. */
  function NewestMatch(glob: (string, string) -> bool, history: seq<Config>, key: string): Option<State>
  {
    if history == [] then None
    else match history[|history| - 1]
      case Add(pattern, state) =>
        if glob(pattern, key) then Some(state)
        else NewestMatch(glob, history[..|history| - 1], key)
      case Clear => None
      case _ => NewestMatch(glob, history[..|history| - 1], key)
  }

  function VerbosityAfter(initial: int, history: seq<Config>): int {
    if history == [] then initial
    else match history[|history| - 1]
      case Verbosity(level) => PrioCap(level)
      case _ => VerbosityAfter(initial, history[..|history| - 1])
  }

  /** What a lookup must answer: the newest matching rule decides, and the
      verbosity does when there is none or the caller is not known. */
  predicate Allowed(glob: (string, string) -> bool, initial: int, history: seq<Config>,
                    prio: int, file: Option<string>, func: Option<string>)
  {
    var hit := if file.Some? && func.Some? then NewestMatch(glob, history, Key(file.value, func.value)) else None;
    match hit
    case Some(Included) => true
    case Some(Excluded) => false
    case _ => prio <= VerbosityAfter(initial, history)
  }

  /** The key is the caller's file and function, cut off behind 255 characters. */
  lemma KeyMeans(file: string, func: string)
    ensures |file| + |func| <= 254 ==> Key(file, func) == file + [':'] + func
    ensures |file| + |func| > 254 ==> |Key(file, func)| == 255 && Key(file, func) <= file + [':'] + func
  {
  }

  /** The rule added at `i` decides on `key`: it matches, and since then there has
      been no clear and no other matching rule. */
  predicate Decides(glob: (string, string) -> bool, history: seq<Config>, key: string, i: nat) {
    && i < |history| && history[i].Add? && glob(history[i].pattern, key)
    && forall j :: i < j < |history| ==>
         history[j] != Clear && (history[j].Add? ==> !glob(history[j].pattern, key))
  }

  lemma {:induction false} NewestDecides(glob: (string, string) -> bool, history: seq<Config>, key: string)
    ensures forall i: nat :: Decides(glob, history, key, i) ==> NewestMatch(glob, history, key) == Some(history[i].state)
    ensures NewestMatch(glob, history, key).Some? ==> exists i: nat :: Decides(glob, history, key, i)
  {
    if history != [] {
      var n := |history| - 1;
      var init := history[..n];
      NewestDecides(glob, init, key);
      assert history[n].Add? && glob(history[n].pattern, key) ==> Decides(glob, history, key, n);
      forall i: nat
        ensures i < n && Decides(glob, history, key, i) ==> Decides(glob, init, key, i) && init[i] == history[i]
      {
      }
      if history[n] != Clear && !(history[n].Add? && glob(history[n].pattern, key)) {
        forall i: nat | Decides(glob, init, key, i)
          ensures Decides(glob, history, key, i)
        {
          assert forall j :: 0 <= j < n ==> init[j] == history[j];
        }
      }
    }
  }

  /** The level set at `i` is the last one. */
  predicate LastLevel(history: seq<Config>, i: nat) {
    && i < |history| && history[i].Verbosity?
    && forall j :: i < j < |history| ==> !history[j].Verbosity?
  }

  /** Levels below 0 count as 0, above 7 as 7; before any is set the initial one holds
      as it is. */
  lemma {:induction false} VerbosityMeans(initial: int, history: seq<Config>)
    ensures (forall c :: c in history ==> !c.Verbosity?) ==> VerbosityAfter(initial, history) == initial
    ensures forall i: nat :: LastLevel(history, i) ==>
              var level := history[i].level;
              VerbosityAfter(initial, history) == if level < 0 then 0 else if level > 7 then 7 else level
  {
    if history != [] {
      var n := |history| - 1;
      var init := history[..n];
      VerbosityMeans(initial, init);
      assert history == init + [history[n]];
      if !history[n].Verbosity? {
        forall i: nat
          ensures LastLevel(history, i) ==> LastLevel(init, i) && init[i] == history[i]
        {
        }
      }
    }
  }

  /** What a lookup answers, by positions in the history: the deciding rule if there
      is one and the caller is known, and otherwise the verbosity. */
  lemma AllowedMeans(glob: (string, string) -> bool, initial: int, history: seq<Config>, prio: int,
                     file: string, func: string)
    ensures var allowed := Allowed(glob, initial, history, prio, Some(file), Some(func)); var key := Key(file, func);
            && (forall i: nat :: Decides(glob, history, key, i) && history[i].state == Included ==> allowed)
            && (forall i: nat :: Decides(glob, history, key, i) && history[i].state == Excluded ==> !allowed)
            && (!(exists i: nat :: Decides(glob, history, key, i)) ==>
                  (allowed <==> prio <= VerbosityAfter(initial, history)))
    ensures forall f :: Allowed(glob, initial, history, prio, None, f) <==> prio <= VerbosityAfter(initial, history)
    ensures forall f :: Allowed(glob, initial, history, prio, f, None) <==> prio <= VerbosityAfter(initial, history)
  {
    NewestDecides(glob, history, Key(file, func));
  }

  // ----- the rule list

  function FirstMatch(glob: (string, string) -> bool, rules: seq<Rule>, key: string): State {
    if rules == [] then Unknown
    else if glob(rules[0].pattern, key) then rules[0].state
    else FirstMatch(glob, rules[1..], key)
  }

  class Rules {
    const glob: (string, string) -> bool
    var rules: seq<Rule>
    var cache: Option<map<string, State>>
    var verbosity: int

    const initial: int
    ghost var history: seq<Config>

    /** Cached answers agree with the rules, and the rules with the history. */
    ghost predicate Valid()
      reads this
    {
      && (cache.None? ==> rules == [])
      && (cache.Some? ==> forall k :: k in cache.value ==> cache.value[k] == FirstMatch(glob, rules, k))
      && AllAgree(glob, rules, history)
      && verbosity == VerbosityAfter(initial, history)
      && forall r :: r in rules ==> r.state == Included || r.state == Excluded
    }

    constructor (glob: (string, string) -> bool, verbosity: int)
      ensures Valid() && history == [] && this.glob == glob && initial == verbosity
    {
      this.glob := glob;
      this.rules := [];
      this.cache := None;
      this.verbosity := verbosity;
      this.initial := verbosity;
      this.history := [];
    }

    /** dsme_log_clear_rules */
    method ClearRules()
      requires Valid()
      modifies this
      ensures Valid() && history == old(history) + [Clear]
    {
      rules := [];
      cache := None;
      history := history + [Clear];
      AgreeStep(glob, initial, old(rules), old(history), Clear);
    }

    /** dsme_log_add_rule, for dsme_log_include and dsme_log_exclude */
    method AddRule(pattern: string, state: State)
      requires Valid()
      requires state == Included || state == Excluded
      modifies this
      ensures Valid() && history == old(history) + [Add(pattern, state)]
    {
      cache := Some(map[]);
      rules := [Rule(pattern, state)] + rules;
      history := history + [Add(pattern, state)];
      AgreeStep(glob, initial, old(rules), old(history), Add(pattern, state));
    }

    method SetVerbosity(level: int)
      requires Valid()
      modifies this
      ensures Valid() && history == old(history) + [Verbosity(level)]
    {
      verbosity := PrioCap(level);
      history := history + [Verbosity(level)];
      AgreeStep(glob, initial, old(rules), old(history), Verbosity(level));
    }

    /** dsme_log_evaluate: a cached Unknown counts as a miss. */
    method Evaluate(file: string, func: string) returns (hit: State)
      requires Valid()
      modifies this`cache
      ensures Valid()
      ensures cache.None? <==> old(cache).None?
      ensures hit == if old(cache).None? then Default else FirstMatch(glob, rules, Key(file, func))
    {
      if cache.None? {
        return Default;
      }
      var key := Key(file, func);
      hit := if key in cache.value then cache.value[key] else Unknown;
      if hit != Unknown {
        return;
      }
      var i := 0;
      while i < |rules|
        invariant 0 <= i <= |rules|
        invariant hit == Unknown
        invariant FirstMatch(glob, rules, key) == FirstMatch(glob, rules[i..], key)
      {
        if glob(rules[i].pattern, key) {
          hit := rules[i].state;
          break;
        }
        i := i + 1;
      }
      cache := Some(cache.value[key := hit]);
    }

    /** dsme_log_p_: answers what the history of configuration calls demands,
        whatever the cache holds. */
    method Allows(prio: int, file: Option<string>, func: Option<string>) returns (allowed: bool)
      requires Valid()
      modifies this
      ensures Valid() && history == old(history) + [Lookup(prio, file, func)]
      ensures allowed == Allowed(glob, initial, old(history), prio, file, func)
    {
      allowed := prio <= verbosity;
      if cache.Some? && file.Some? && func.Some? {
        var state := Evaluate(file.value, func.value);
        match state
        case Included => allowed := true;
        case Excluded => allowed := false;
        case _ =>
      }
      assert file.Some? && func.Some? ==> RulesAgree(glob, rules, history, Key(file.value, func.value));
      history := history + [Lookup(prio, file, func)];
      AgreeStep(glob, initial, old(rules), old(history), Lookup(prio, file, func));
    }
  }

  /** First match in the rule list is newest match in the history. */
  predicate RulesAgree(glob: (string, string) -> bool, rules: seq<Rule>, history: seq<Config>, key: string) {
    FirstMatch(glob, rules, key) ==
    match NewestMatch(glob, history, key)
    case Some(s) => s
    case None => Unknown
  }

  ghost predicate AllAgree(glob: (string, string) -> bool, rules: seq<Rule>, history: seq<Config>) {
    forall k :: RulesAgree(glob, rules, history, k)
  }

  lemma SnocFacts(glob: (string, string) -> bool, initial: int, history: seq<Config>, c: Config)
    ensures (history + [c])[..|history|] == history
    ensures VerbosityAfter(initial, history + [c]) ==
            if c.Verbosity? then PrioCap(c.level) else VerbosityAfter(initial, history)
    ensures forall k :: NewestMatch(glob, history + [c], k) ==
                        if c.Add? && glob(c.pattern, k) then Some(c.state)
                        else if c.Clear? then None
                        else NewestMatch(glob, history, k)
  {
  }

  /** The rule list after one configuration call. */
  function Configure(rules: seq<Rule>, c: Config): seq<Rule> {
    match c
    case Add(pattern, state) => [Rule(pattern, state)] + rules
    case Clear => []
    case _ => rules
  }

  lemma AgreeStep(glob: (string, string) -> bool, initial: int, rules: seq<Rule>, history: seq<Config>, c: Config)
    requires AllAgree(glob, rules, history)
    ensures AllAgree(glob, Configure(rules, c), history + [c])
    ensures VerbosityAfter(initial, history + [c]) ==
            if c.Verbosity? then PrioCap(c.level) else VerbosityAfter(initial, history)
  {
    SnocFacts(glob, initial, history, c);
    var after := Configure(rules, c);
    forall k
      ensures RulesAgree(glob, after, history + [c], k)
    {
      assert RulesAgree(glob, rules, history, k);
      if c.Add? {
        assert after[1..] == rules;
      }
    }
  }

  /** Lookups leave no trace: dropping every lookup from a history changes no
      later answer, so the cache they fill is not observable. */
  function Without(history: seq<Config>): seq<Config> {
    if history == [] then []
    else
      var rest := Without(history[..|history| - 1]);
      if history[|history| - 1].Lookup? then rest else rest + [history[|history| - 1]]
  }

  lemma {:induction false} LookupsUnobservable(glob: (string, string) -> bool, initial: int, history: seq<Config>,
                                               key: string)
    ensures NewestMatch(glob, history, key) == NewestMatch(glob, Without(history), key)
    ensures VerbosityAfter(initial, history) == VerbosityAfter(initial, Without(history))
  {
    if history != [] {
      var init := history[..|history| - 1];
      LookupsUnobservable(glob, initial, init, key);
      if !history[|history| - 1].Lookup? {
        SnocFacts(glob, initial, Without(init), history[|history| - 1]);
        SnocFacts(glob, initial, init, history[|history| - 1]);
        assert init + [history[|history| - 1]] == history;
      }
    }
  }
}

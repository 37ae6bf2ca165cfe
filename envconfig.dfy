/**
 * Broker definitions read from the process environment. Broker slot `i`
 * (1 to 100) is every variable whose name contains `BROKER<i>_`; the rest
 * of the name is the key. A slot defines a broker when its NAME is set and
 * non-empty.
 *
 * The environment is passed in as the list of `NAME=value` entries the
 * operating system reports, in its order.
 */
module EnvConfig {
  import opened Wrappers
  import opened GoStrings
  import opened BrokerTypes
  import opened Assignments

  /** The highest broker slot scanned. */
  const MaxSlots := 100

  /** An environment entry always holds an '='. */
  predicate WellFormed(env: seq<string>)
  {
    forall j :: 0 <= j < |env| ==> '=' in env[j]
  }

  function Prefix(slot: nat): string
  {
    "BROKER" + NatToDecimal(slot) + "_"
  }

  /** The variable name of an entry: the text before its first '='. */
  function VarName(entry: string): string
  {
    Split(entry, '=')[0]
  }

  /** The value of an entry: the text between its first and second '='. */
  function VarValue(entry: string): string
    requires '=' in entry
  {
    SplitSecond(entry, '=');
    Split(entry, '=')[1]
  }

  /** An entry joins a slot when its name contains the prefix anywhere. */
  predicate Joins(entry: string, prefix: string)
  {
    Contains(VarName(entry), prefix)
  }

  /** The key an entry gives: its name with the first occurrence of the prefix removed. */
  function KeyOf(entry: string, prefix: string): string
  {
    ReplaceFirst(VarName(entry), prefix, "")
  }

  /** The value is what follows the first '=', cut at a second '='. */
  lemma VarValueIsBetweenEquals(entry: string)
    requires '=' in entry
    ensures var rest := entry[CharIndex(entry, '=') + 1..];
      VarValue(entry) == if '=' in rest then rest[..CharIndex(rest, '=')] else rest
  {
    SplitSecond(entry, '=');
  }

  /** What entry `j` contributes to a slot: a key and a value, or nothing. */
  function Update(env: seq<string>, prefix: string, j: nat): Option<(string, string)>
    requires WellFormed(env) && j < |env|
  {
    if Joins(env[j], prefix) then Some((KeyOf(env[j], prefix), VarValue(env[j]))) else None
  }

  function Updates(env: seq<string>, prefix: string): (ops: seq<Option<(string, string)>>)
    requires WellFormed(env)
    ensures |ops| == |env| && forall j :: 0 <= j < |env| ==> ops[j] == Update(env, prefix, j)
  {
    seq(|env|, j requires 0 <= j < |env| => Update(env, prefix, j))
  }

  /** The key/value map of one slot after the first `n` entries, a later entry overwriting an earlier one. */
  function SlotValues(env: seq<string>, prefix: string, n: nat): map<string, string>
    requires WellFormed(env) && n <= |env|
  {
    Written(Updates(env, prefix), n)
  }

  /** Entry `j` either sets its key in the slot's map or leaves the map alone. */
  lemma SlotValuesStep(env: seq<string>, prefix: string, j: nat)
    requires WellFormed(env) && j < |env|
    ensures SlotValues(env, prefix, j + 1) == if Joins(env[j], prefix)
      then SlotValues(env, prefix, j)[KeyOf(env[j], prefix) := VarValue(env[j])]
      else SlotValues(env, prefix, j)
  {
    var ops := Updates(env, prefix);
    assert ops[j] == Update(env, prefix, j);
  }

  /** `getAllConfigValues`: one pass over the environment. */
  method GetAllConfigValues(env: seq<string>, prefix: string) returns (values: map<string, string>)
    requires WellFormed(env)
    ensures values == SlotValues(env, prefix, |env|)
  {
    values := map[];
    for j := 0 to |env|
      invariant values == SlotValues(env, prefix, j)
    {
      var variable := Split(env[j], '=');
      SplitSecond(env[j], '=');
      assert variable[0] == VarName(env[j]) && variable[1] == VarValue(env[j]);
      SlotValuesStep(env, prefix, j);
      if Contains(variable[0], prefix) {
        var key := ReplaceFirst(variable[0], prefix, "");
        values := values[key := variable[1]];
      }
    }
  }

  /** Entry `j` gives key `k` for the slot. */
  predicate Gives(env: seq<string>, prefix: string, j: nat, k: string)
    requires j < |env|
  {
    Joins(env[j], prefix) && KeyOf(env[j], prefix) == k
  }

  /**
   * A key is in a slot's map exactly when some entry gives it, and its
   * value is that of the last entry that does.
   */
  lemma SlotValuesLastWins(env: seq<string>, prefix: string)
    requires WellFormed(env)
    ensures forall k :: k in SlotValues(env, prefix, |env|) <==> exists j :: 0 <= j < |env| && Gives(env, prefix, j, k)
    ensures forall k :: k in SlotValues(env, prefix, |env|) ==> exists j :: (0 <= j < |env| && Gives(env, prefix, j, k) &&
      SlotValues(env, prefix, |env|)[k] == VarValue(env[j]) &&
      forall j' :: j < j' < |env| ==> !Gives(env, prefix, j', k))
  {
    var ops := Updates(env, prefix);
    assert forall j, k :: 0 <= j < |env| ==> (Writes(ops, j, k) <==> Gives(env, prefix, j, k));
    forall k {
      WrittenKey(ops, |env|, k);
    }
    forall k | k in SlotValues(env, prefix, |env|) {
      WrittenLast(ops, |env|, k);
    }
  }

  /** The configuration a slot's map yields; absent fields are empty. */
  function ConfigOf(values: map<string, string>): (c: BrokerConfiguration)
    ensures c.all == values
    ensures c.name == Lookup(values, "NAME") && c.kind == Lookup(values, "TYPE") && c.url == Lookup(values, "URL")
    ensures c.user == Lookup(values, "USER") && c.pass == Lookup(values, "PASS")
  {
    BrokerConfiguration(Lookup(values, "NAME"), Lookup(values, "TYPE"), Lookup(values, "URL"),
      Lookup(values, "USER"), Lookup(values, "PASS"), values)
  }

  /** A slot yields a broker when its NAME is present and not empty. */
  predicate Defines(values: map<string, string>)
  {
    "NAME" in values && values["NAME"] != ""
  }

  function Slot(env: seq<string>, slot: nat): map<string, string>
    requires WellFormed(env)
  {
    SlotValues(env, Prefix(slot), |env|)
  }

  /** The configuration slot `i` yields, if it defines a broker. */
  function SlotConfig(env: seq<string>, i: nat): (r: Option<BrokerConfiguration>)
    requires WellFormed(env)
    ensures r.Some? <==> Defines(Slot(env, i))
    ensures r.Some? ==> r.value == ConfigOf(Slot(env, i)) && r.value.name != ""
  {
    var values := Slot(env, i);
    if Defines(values) then Some(ConfigOf(values)) else None
  }

  /** The configurations of slots 1 to `n`, in slot order. */
  function ConfigsUpTo(env: seq<string>, n: nat): seq<BrokerConfiguration>
    requires WellFormed(env)
  {
    if n == 0 then []
    else ConfigsUpTo(env, n - 1) + (if SlotConfig(env, n).Some? then [SlotConfig(env, n).value] else [])
  }

  /** What `GetAdapterConfigurations` returns for an environment. */
  function Configs(env: seq<string>): seq<BrokerConfiguration>
    requires WellFormed(env)
  {
    ConfigsUpTo(env, MaxSlots)
  }

  /** `GetAdapterConfigurations`: slots 1 to 100 in increasing order. */
  method GetAdapterConfigurations(env: seq<string>) returns (configs: seq<BrokerConfiguration>)
    requires WellFormed(env)
    ensures configs == Configs(env)
  {
    configs := [];
    var i := 1;
    while i < MaxSlots + 1
      invariant 1 <= i <= MaxSlots + 1
      invariant configs == ConfigsUpTo(env, i - 1)
    {
      var variables := GetAllConfigValues(env, Prefix(i));
      if "NAME" !in variables || variables["NAME"] == "" {
        i := i + 1;
        continue;
      }
      configs := configs + [ConfigOf(variables)];
      i := i + 1;
    }
  }

  /**
   * A configuration comes out exactly for each defining slot up to `n`,
   * and there are at most `n`.
   */
  lemma {:induction false} ConfigsUpToFacts(env: seq<string>, n: nat)
    requires WellFormed(env)
    ensures |ConfigsUpTo(env, n)| <= n
    ensures forall c :: c in ConfigsUpTo(env, n) <==> exists i :: 1 <= i <= n && SlotConfig(env, i) == Some(c)
  {
    if n > 0 {
      ConfigsUpToFacts(env, n - 1);
      forall c
        ensures c in ConfigsUpTo(env, n) <==> exists i :: 1 <= i <= n && SlotConfig(env, i) == Some(c)
      {
        ConfigsUpToMember(env, n, c);
      }
    }
  }

  /** One more slot adds its configuration, if it has one, to what the earlier slots gave. */
  lemma ConfigsUpToMember(env: seq<string>, n: nat, c: BrokerConfiguration)
    requires WellFormed(env) && n > 0
    requires c in ConfigsUpTo(env, n - 1) <==> exists i :: 1 <= i <= n - 1 && SlotConfig(env, i) == Some(c)
    ensures c in ConfigsUpTo(env, n) <==> exists i :: 1 <= i <= n && SlotConfig(env, i) == Some(c)
  {
    var before := ConfigsUpTo(env, n - 1);
    var sc := SlotConfig(env, n);
    var last := if sc.Some? then [sc.value] else [];
    assert ConfigsUpTo(env, n) == before + last;
    assert c in last <==> sc == Some(c);
    if c in before {
      var i :| 1 <= i <= n - 1 && SlotConfig(env, i) == Some(c);
      assert 1 <= i <= n;
    }
    if exists i :: 1 <= i <= n && SlotConfig(env, i) == Some(c) {
      var i :| 1 <= i <= n && SlotConfig(env, i) == Some(c);
      if i < n {
        assert c in before;
      }
    }
  }

  /**
   * At most 100 configurations, each the configuration of a defining slot
   * (so each named), and every defining slot's configuration among them.
   */
  lemma ConfigsFacts(env: seq<string>)
    requires WellFormed(env)
    ensures |Configs(env)| <= MaxSlots
    ensures forall c :: c in Configs(env) ==> c.name != ""
    ensures forall c :: c in Configs(env) <==>
      exists i :: 1 <= i <= MaxSlots && Defines(Slot(env, i)) && c == ConfigOf(Slot(env, i))
  {
    ConfigsUpToFacts(env, MaxSlots);
    forall c
      ensures c in Configs(env) <==> exists i :: 1 <= i <= MaxSlots && Defines(Slot(env, i)) && c == ConfigOf(Slot(env, i))
    {
      if c in Configs(env) {
        var i :| 1 <= i <= MaxSlots && SlotConfig(env, i) == Some(c);
        assert Defines(Slot(env, i)) && c == ConfigOf(Slot(env, i));
      }
      if exists i :: 1 <= i <= MaxSlots && Defines(Slot(env, i)) && c == ConfigOf(Slot(env, i)) {
        var i :| 1 <= i <= MaxSlots && Defines(Slot(env, i)) && c == ConfigOf(Slot(env, i));
        assert SlotConfig(env, i) == Some(c);
      }
    }
  }

  /** The configurations up to `n` extend those up to `n - 1` by slot `n`'s, if it defines one. */
  lemma ConfigsUpToStep(env: seq<string>, n: nat)
    requires WellFormed(env) && n >= 1
    ensures var before := ConfigsUpTo(env, n - 1);
      ConfigsUpTo(env, n)[..|before|] == before &&
      (SlotConfig(env, n).Some? ==>
        (|ConfigsUpTo(env, n)| == |before| + 1 && ConfigsUpTo(env, n)[|before|] == SlotConfig(env, n).value))
  {
  }

  /** Of two defining slots, the lower one's configuration comes first. */
  lemma {:induction false} ConfigsInSlotOrder(env: seq<string>, n: nat, i: nat, j: nat)
    requires WellFormed(env) && 1 <= i < j <= n
    requires SlotConfig(env, i).Some? && SlotConfig(env, j).Some?
    ensures exists a, b :: (0 <= a < b < |ConfigsUpTo(env, n)| &&
      ConfigsUpTo(env, n)[a] == SlotConfig(env, i).value && ConfigsUpTo(env, n)[b] == SlotConfig(env, j).value)
  {
    if j < n {
      ConfigsInSlotOrder(env, n - 1, i, j);
      EarlierPairKept(env, n, SlotConfig(env, i).value, SlotConfig(env, j).value);
    } else {
      LastSlotComesLast(env, n, i);
    }
  }

  /** `ci` occurs before `cj` in `cs`. */
  predicate InOrderIn(cs: seq<BrokerConfiguration>, ci: BrokerConfiguration, cj: BrokerConfiguration)
  {
    exists a, b :: 0 <= a < b < |cs| && cs[a] == ci && cs[b] == cj
  }

  /** Two configurations in order up to `n - 1` stay in order up to `n`. */
  lemma EarlierPairKept(env: seq<string>, n: nat, ci: BrokerConfiguration, cj: BrokerConfiguration)
    requires WellFormed(env) && n >= 1
    requires InOrderIn(ConfigsUpTo(env, n - 1), ci, cj)
    ensures InOrderIn(ConfigsUpTo(env, n), ci, cj)
  {
    var cs, before := ConfigsUpTo(env, n), ConfigsUpTo(env, n - 1);
    ConfigsUpToStep(env, n);
    var a, b :| 0 <= a < b < |before| && before[a] == ci && before[b] == cj;
    assert cs[a] == before[a] && cs[b] == before[b];
  }

  /** Slot `n`'s configuration comes after that of any lower defining slot. */
  lemma LastSlotComesLast(env: seq<string>, n: nat, i: nat)
    requires WellFormed(env) && 1 <= i < n
    requires SlotConfig(env, i).Some? && SlotConfig(env, n).Some?
    ensures InOrderIn(ConfigsUpTo(env, n), SlotConfig(env, i).value, SlotConfig(env, n).value)
  {
    var cs, before := ConfigsUpTo(env, n), ConfigsUpTo(env, n - 1);
    ConfigsUpToStep(env, n);
    var ci := SlotConfig(env, i).value;
    assert ci in before by {
      ConfigsUpToFacts(env, n - 1);
      assert SlotConfig(env, i) == Some(ci);
    }
    var a :| 0 <= a < |before| && before[a] == ci;
    assert cs[a] == before[a] && cs[|before|] == SlotConfig(env, n).value;
  }
}

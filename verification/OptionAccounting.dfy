/** What the option table makes of a whole configuration, whatever order its keys come in. */
module OptionAccounting {
  import opened Common
  import opened Text
  import opened SecurityKeys
  import opened GoNumbers
  import opened OptionTable
  import F = FranzSecurity

  // -- Which configurations get through the loop --------------------------------------------------

  /** The key is known and its own value is in order. */
  predicate Accepted(name: string, value: string) {
    && !IsReserved(name)
    && (KeyFor(name).Secure? ||
        var client := FindClient(CLIENT_KEYS, name);
        client.Some? && Translate(client.value, value).Ok?)
  }

  lemma StepAccepts(before: Walked, name: string, value: string)
    ensures Step(before, name, value).Ok? <==> Accepted(name, value)
  {
  }

  predicate Any(keys: seq<string>, p: string -> bool) {
    exists i :: 0 <= i < |keys| && p(keys[i])
  }

  lemma AnyLast(keys: seq<string>, p: string -> bool)
    requires keys != []
    ensures Any(keys, p) <==> Any(keys[..|keys| - 1], p) || p(keys[|keys| - 1])
  {
    var front := keys[..|keys| - 1];
    if i :| 0 <= i < |front| && p(front[i]) { assert p(keys[i]); }
    if i :| 0 <= i < |keys| && p(keys[i]) { assert i < |front| ==> p(front[i]); }
  }

  /** The name is there and is not accepted. */
  predicate Refused(config: map<string, string>, name: string) {
    name in config && !Accepted(name, config[name])
  }

  lemma {:induction false} WalkAccepts(keys: seq<string>, config: map<string, string>)
    requires forall i :: 0 <= i < |keys| ==> keys[i] in config
    ensures Walk(keys, config).Ok? <==> !Any(keys, name => Refused(config, name))
  {
    if keys != [] {
      var front, last := keys[..|keys| - 1], keys[|keys| - 1];
      WalkAccepts(front, config);
      AnyLast(keys, name => Refused(config, name));
      if Walk(front, config).Ok? {
        StepAccepts(Walk(front, config).value, last, config[last]);
      }
    }
  }

  /** The loop gets through exactly when every key of the map is accepted. */
  lemma WalkAcceptsTheMap(keys: seq<string>, config: map<string, string>)
    requires SortedKeysOf(keys, config)
    ensures Walk(keys, config).Ok? <==> forall name :: name in config ==> Accepted(name, config[name])
  {
    WalkAccepts(keys, config);
    if forall name :: name in config ==> Accepted(name, config[name]) {
      assert forall i :: 0 <= i < |keys| ==> !Refused(config, keys[i]);
    }
    if !Any(keys, name => Refused(config, name)) {
      forall name | name in config ensures Accepted(name, config[name]) {
        assert name in keys;
        assert !Refused(config, name);
      }
    }
  }

  /** The option a key contributes, if it contributes one. */
  function Contribution(name: string, value: string): Option<KgoOption> {
    if IsReserved(name) || KeyFor(name).Secure? then None
    else
      match FindClient(CLIENT_KEYS, name)
      case None => None
      case Some(k) => match Translate(k, value) { case Ok(opt) => opt case Err(_) => None }
  }

  lemma StepContributes(before: Walked, name: string, value: string)
    requires Step(before, name, value).Ok?
    ensures Step(before, name, value).value.opts == before.opts +
      (match Contribution(name, value) { case Some(opt) => [opt] case None => [] })
  {
    assert before.opts + [] == before.opts;
  }

  /** The name contributes the option. */
  predicate Contributes(config: map<string, string>, opt: KgoOption, name: string) {
    name in config && Contribution(name, config[name]) == Some(opt)
  }

  /** The options are the contributions of the keys, no more and no fewer. */
  lemma {:induction false} OptionsAreContributions(keys: seq<string>, config: map<string, string>, opt: KgoOption)
    requires (forall i :: 0 <= i < |keys| ==> keys[i] in config) && Walk(keys, config).Ok?
    ensures opt in Walk(keys, config).value.opts <==> Any(keys, name => Contributes(config, opt, name))
  {
    if keys != [] {
      var front, last := keys[..|keys| - 1], keys[|keys| - 1];
      OptionsAreContributions(front, config, opt);
      StepContributes(Walk(front, config).value, last, config[last]);
      AnyLast(keys, name => Contributes(config, opt, name));
    }
  }

  // -- The security fields, read off the map ---------------------------------------------------------

  /** The raw value a field gets: the alias of the mechanism beats its first name, which sorts
      before it. */
  function RawValue(config: map<string, string>, k: SecurityKey): Option<string> {
    ValueUnder(config, k, WireName(k), WireName(MechanismsAlias))
  }

  function ValueUnder(config: map<string, string>, k: SecurityKey, name: string, alias: string): Option<string> {
    if k.MechanismsAlias? then None
    else if k.Mechanism? && alias in config then Some(config[alias])
    else if name in config then Some(config[name])
    else None
  }

  /** All fields, without mention of an order. */
  function FieldsIn(config: map<string, string>): F.Fields {
    map k | k in ALL_KEYS && RawValue(config, k).Some? :: F.Stored(k, RawValue(config, k).value)
  }

  function Restrict(config: map<string, string>, keys: seq<string>): map<string, string>
    requires forall i :: 0 <= i < |keys| ==> keys[i] in config
  {
    map k | k in keys :: config[k]
  }

  lemma {:induction false} PrefixIsLess(a: string, b: string)
    requires a <= b && a != b
    ensures Less(a, b)
  {
    if a != [] { PrefixIsLess(a[1..], b[1..]); }
  }

  lemma MechanismSortsFirst()
    ensures Less(WireName(Mechanism), WireName(MechanismsAlias))
  {
    PrefixIsLess(WireName(Mechanism), WireName(MechanismsAlias));
  }

  lemma RestrictLast(config: map<string, string>, keys: seq<string>)
    requires keys != [] && forall i :: 0 <= i < |keys| ==> keys[i] in config
    ensures var last := keys[|keys| - 1];
      Restrict(config, keys) == Restrict(config, keys[..|keys| - 1])[last := config[last]]
  {
    assert keys == keys[..|keys| - 1] + [keys[|keys| - 1]];
  }

  /** The field holds exactly its raw value, as stored. */
  predicate FieldIs(fields: F.Fields, k: SecurityKey, raw: Option<string>) {
    (k in fields <==> raw.Some?) && (raw.Some? ==> fields[k] == F.Stored(k, raw.value))
  }

  lemma TakingAnotherName(config: map<string, string>, fields: F.Fields, k: SecurityKey, name: string, value: string)
    requires FieldIs(fields, k, RawValue(config, k)) && KeyFor(name).Other?
    ensures FieldIs(fields, k, RawValue(config[name := value], k))
  {
    KeyOfWireName(k);
    KeyOfWireName(MechanismsAlias);
  }

  lemma TakingUnderNames(config: map<string, string>, fields: F.Fields, k: SecurityKey, taken: SecurityKey, value: string,
                         name: string, takenName: string, alias: string)
    requires FieldIs(fields, k, ValueUnder(config, k, name, alias))
    requires taken.Mechanism? ==> alias !in config
    requires (takenName == name <==> taken == k) && (takenName == alias <==> taken.MechanismsAlias?)
    ensures FieldIs(F.Collected(fields, taken, value), k, ValueUnder(config[takenName := value], k, name, alias))
  {
  }

  lemma TakingASecurityKey(config: map<string, string>, fields: F.Fields, k: SecurityKey, taken: SecurityKey, value: string)
    requires FieldIs(fields, k, RawValue(config, k))
    requires taken.Mechanism? ==> WireName(MechanismsAlias) !in config
    ensures FieldIs(F.Collected(fields, taken, value), k, RawValue(config[WireName(taken) := value], k))
  {
    SameNameSameKey(taken, k);
    SameNameSameKey(taken, MechanismsAlias);
    TakingUnderNames(config, fields, k, taken, value, WireName(k), WireName(taken), WireName(MechanismsAlias));
  }

  lemma StepField(before: Walked, seen: map<string, string>, k: SecurityKey, name: string, value: string)
    requires FieldIs(before.fields, k, RawValue(seen, k)) && Step(before, name, value).Ok?
    requires KeyFor(name) == Secure(Mechanism) ==> WireName(MechanismsAlias) !in seen
    ensures FieldIs(Step(before, name, value).value.fields, k, RawValue(seen[name := value], k))
  {
    match KeyFor(name)
    case Other(_) => TakingAnotherName(seen, before.fields, k, name, value);
    case Secure(taken) =>
      NamesAndKeysMatch(name, taken);
      TakingASecurityKey(seen, before.fields, k, taken, value);
  }

  lemma {:induction false} WalkFieldAt(keys: seq<string>, config: map<string, string>, k: SecurityKey)
    requires Sorted(keys) && (forall i :: 0 <= i < |keys| ==> keys[i] in config) && Walk(keys, config).Ok?
    ensures FieldIs(Walk(keys, config).value.fields, k, RawValue(Restrict(config, keys), k))
  {
    if keys != [] {
      var front, last := keys[..|keys| - 1], keys[|keys| - 1];
      WalkFieldAt(front, config, k);
      RestrictLast(config, keys);
      if KeyFor(last) == Secure(Mechanism) {
        NamesAndKeysMatch(last, Mechanism);
        AliasIsNotBefore(keys);
      }
      StepField(Walk(front, config).value, Restrict(config, front), k, last, config[last]);
    }
  }

  lemma AliasIsNotBefore(keys: seq<string>)
    requires keys != [] && Sorted(keys) && keys[|keys| - 1] == WireName(Mechanism)
    ensures WireName(MechanismsAlias) !in keys[..|keys| - 1]
  {
    MechanismSortsFirst();
    LessIsTotal(WireName(Mechanism), WireName(MechanismsAlias));
    if i :| 0 <= i < |keys| - 1 && keys[i] == WireName(MechanismsAlias) {
      assert Less(keys[i], keys[|keys| - 1]);
    }
  }

  lemma StepSees(before: Walked, name: string, value: string)
    requires Step(before, name, value).Ok?
    ensures Step(before, name, value).value.sawKey <==> before.sawKey || KeyFor(name).Secure?
  {
  }

  lemma {:induction false} WalkSaw(keys: seq<string>, config: map<string, string>)
    requires (forall i :: 0 <= i < |keys| ==> keys[i] in config) && Walk(keys, config).Ok?
    ensures Walk(keys, config).value.sawKey <==> Any(keys, name => KeyFor(name).Secure?)
  {
    if keys != [] {
      var front, last := keys[..|keys| - 1], keys[|keys| - 1];
      WalkSaw(front, config);
      StepSees(Walk(front, config).value, last, config[last]);
      AnyLast(keys, name => KeyFor(name).Secure?);
    }
  }

  predicate HasSecurityKey(config: map<string, string>) {
    exists name :: name in config && KeyFor(name).Secure?
  }

  lemma FieldsAreTheMaps(keys: seq<string>, config: map<string, string>)
    requires SortedKeysOf(keys, config) && Walk(keys, config).Ok?
    ensures Walk(keys, config).value.fields == FieldsIn(config)
    ensures Walk(keys, config).value.sawKey <==> HasSecurityKey(config)
  {
    var fields := Walk(keys, config).value.fields;
    assert Restrict(config, keys) == config;
    forall k: SecurityKey ensures FieldIs(fields, k, RawValue(config, k)) && k in ALL_KEYS {
      WalkFieldAt(keys, config, k);
      AllKeysAreListed(k);
    }
    WalkSaw(keys, config);
  }

  // -- The table as a function of the map -----------------------------------------------------------

  /** The translation of a configuration succeeds exactly when every key is accepted and the
      security keys fit together; its security is that of the map; and its options are exactly the
      contributions of the keys. */
  lemma TranslationIsOfTheMap(config: map<string, string>, w: F.World)
    ensures var r, security := Translated(config, w), F.Build(FieldsIn(config), HasSecurityKey(config), w);
      && (r.Ok? <==> (forall name :: name in config ==> Accepted(name, config[name])) && security.Ok?)
      && (r.Ok? ==> r.value.security == security.value)
      && (r.Ok? ==> forall opt :: opt in r.value.opts <==>
            exists name :: Contributes(config, opt, name))
      && ((forall name :: name in config ==> Accepted(name, config[name])) && security.Err? ==>
            r == Err(BadSecurity(security.error)))
  {
    var keys := KeysInOrder(config);
    WalkAcceptsTheMap(keys, config);
    if Walk(keys, config).Ok? {
      FieldsAreTheMaps(keys, config);
      forall opt
        ensures opt in Walk(keys, config).value.opts <==> exists name :: Contributes(config, opt, name)
      {
        OptionsAreContributions(keys, config, opt);
        if name :| Contributes(config, opt, name) {
          assert name in keys;
        }
      }
    }
  }
}

/**
 Secret headers and parameters of message APIs: masked when read, carried over when a masked value is
 written back.
 */
module SecretMask {
  import opened Wrappers
  import opened Strings

  type Values = map<string, string>
  type Id = nat

  const MASK := "********"

  /** `secretKeys` name a header or parameter, with or without the section in front. */
  datatype Config = Config(headers: Values, parameters: Values, secretKeys: seq<string>)

  // ---------------------------------------------------------------------------
  // Secret keys
  // ---------------------------------------------------------------------------

  /** The section a secret key is limited to, if any, and the name behind it. */
  function SplitSecretKey(value: string): (string, string) {
    var (section, key, found) := Cut(value, '.');
    if found && (section == "headers" || section == "parameters") then (section, key) else ("", value)
  }

  predicate Names(secretKey: string, section: string, key: string) {
    var (candidateSection, candidateKey) := SplitSecretKey(secretKey);
    candidateKey == key && (candidateSection == "" || candidateSection == section)
  }

  predicate IsSecret(secretKeys: seq<string>, section: string, key: string) {
    exists i :: 0 <= i < |secretKeys| && Names(secretKeys[i], section, key)
  }

  /** A key is named by its name with the section in front, or by its name alone if that starts with no section. */
  lemma NamesMeans(secretKey: string, section: string, key: string)
    requires section == "headers" || section == "parameters"
    ensures Names(secretKey, section, key) <==>
            || secretKey == section + "." + key
            || (secretKey == key && !("headers." <= key) && !("parameters." <= key))
  {
    var i := Find(secretKey, '.');
    FindIsFirst(secretKey, '.');
    if i < |secretKey| {
      assert secretKey == secretKey[..i] + "." + secretKey[i + 1..];
      SectionInFront("headers", secretKey);
      SectionInFront("parameters", secretKey);
      if secretKey == section + "." + key {
        FindAt(section, '.', key);
        assert secretKey[i + 1..] == key;
      }
    } else {
      assert secretKey[..i] == secretKey;
      DotInside(section, secretKey);
      DotInside("headers", secretKey);
      DotInside("parameters", secretKey);
      assert secretKey == section + "." + key ==> section + "." <= secretKey;
    }
  }

  lemma DotInside(section: string, value: string)
    ensures section + "." <= value ==> '.' in value
  {
    if section + "." <= value {
      assert value[|section|] == '.';
    }
  }

  lemma SectionFound(section: string, value: string)
    requires '.' !in section && section + "." <= value
    ensures Find(value, '.') == |section| && value[..|section|] == section
  {
    assert value == section + ['.'] + value[|section| + 1..];
    FindAt(section, '.', value[|section| + 1..]);
    assert value[..|section|] == section;
  }

  lemma SectionThere(section: string, value: string, i: nat)
    requires i < |value| && value[i] == '.' && value[..i] == section
    ensures section + "." <= value
  {
    assert value[..i + 1] == section + ".";
  }

  lemma SectionInFront(section: string, value: string)
    requires '.' !in section
    ensures section + "." <= value <==> Find(value, '.') < |value| && value[..Find(value, '.')] == section
  {
    var i := Find(value, '.');
    if section + "." <= value {
      SectionFound(section, value);
    }
    if i < |value| && value[..i] == section {
      SectionThere(section, value, i);
    }
  }

  method ValueIsSecret(secretKeys: seq<string>, section: string, key: string) returns (secret: bool)
    ensures secret == IsSecret(secretKeys, section, key)
  {
    for i := 0 to |secretKeys|
      invariant forall k :: 0 <= k < i ==> !Names(secretKeys[k], section, key)
    {
      if Names(secretKeys[i], section, key) {
        return true;
      }
    }
    return false;
  }

  // ---------------------------------------------------------------------------
  // Masking and merging
  // ---------------------------------------------------------------------------

  function Shown(value: string, secret: bool): string {
    if secret && value != "" then MASK else value
  }

  function Masked(values: Values, secretKeys: seq<string>, section: string): Values {
    map key | key in values :: Shown(values[key], IsSecret(secretKeys, section, key))
  }

  /** A masked value stands for a stored secret of the same name. */
  predicate MayRestore(previous: Values, secretKeys: seq<string>, section: string, key: string) {
    IsSecret(secretKeys, section, key) && key in previous && previous[key] != ""
  }

  predicate Mergeable(values: Values, previous: Values, secretKeys: seq<string>, section: string) {
    forall key :: key in values && values[key] == MASK ==> MayRestore(previous, secretKeys, section, key)
  }

  function Merged(values: Values, previous: Values): Values {
    map key | key in values :: if values[key] == MASK && key in previous then previous[key] else values[key]
  }

  lemma MergedMeans(values: Values, previous: Values, merged: Values)
    requires IsMerged(values, previous, merged)
    ensures merged == Merged(values, previous)
  {
  }

  /** What was masked is the stored value, what was not is the new one, and what is missing is gone. */
  ghost predicate IsMerged(values: Values, previous: Values, merged: Values) {
    && merged.Keys == values.Keys
    && forall key :: key in values ==>
         if values[key] == "********" then key in previous && merged[key] == previous[key]
         else merged[key] == values[key]
  }

  method MaskSecrets(values: Values, secretKeys: seq<string>, section: string) returns (masked: Values)
    ensures masked == Masked(values, secretKeys, section)
    ensures masked.Keys == values.Keys
    ensures forall key :: key in values ==>
              masked[key] == if IsSecret(secretKeys, section, key) && values[key] != "" then "********" else values[key]
  {
    masked := map[];
    var keys := values.Keys;
    while keys != {}
      invariant keys <= values.Keys
      invariant masked == map key | key in values.Keys - keys :: Shown(values[key], IsSecret(secretKeys, section, key))
      decreases |keys|
    {
      var key :| key in keys;
      var value := values[key];
      var secret := ValueIsSecret(secretKeys, section, key);
      if secret && value != "" {
        value := MASK;
      }
      masked := masked[key := value];
      keys := keys - {key};
    }
  }

  /** The merged values, or a key whose mask stands for nothing. */
  method MergeSecrets(values: Values, previous: Values, secretKeys: seq<string>, section: string)
    returns (result: Result<Values, string>)
    ensures result.Ok? <==> Mergeable(values, previous, secretKeys, section)
    ensures result.Ok? ==> result.value == Merged(values, previous) && IsMerged(values, previous, result.value)
    ensures result.Err? ==> result.error in values && values[result.error] == MASK
    ensures result.Err? ==> !MayRestore(previous, secretKeys, section, result.error)
  {
    var merged: Values := map[];
    var keys := values.Keys;
    while keys != {}
      invariant keys <= values.Keys
      invariant forall key :: key in values.Keys - keys && values[key] == MASK ==>
                  MayRestore(previous, secretKeys, section, key)
      invariant merged.Keys == values.Keys - keys
      invariant forall key :: key in merged ==>
                  if values[key] == MASK then key in previous && merged[key] == previous[key]
                  else merged[key] == values[key]
      decreases |keys|
    {
      var key :| key in keys;
      var value := values[key];
      if value == MASK {
        var secret := ValueIsSecret(secretKeys, section, key);
        if !secret || key !in previous || previous[key] == "" {
          return Err(key);
        }
        value := previous[key];
      }
      merged := merged[key := value];
      keys := keys - {key};
    }
    MergedMeans(values, previous, merged);
    return Ok(merged);
  }

  predicate MaskFree(values: Values) {
    forall key :: key in values ==> values[key] != MASK
  }

  /**
   Writing back what was read restores the stored values exactly when every stored mask literal
   belongs to a secret key; in particular when there is none.
   */
  lemma WriteBackRestores(values: Values, secretKeys: seq<string>, section: string)
    ensures
      var read := Masked(values, secretKeys, section);
      (Mergeable(read, values, secretKeys, section) && Merged(read, values) == values) <==>
      (forall key :: key in values && values[key] == MASK ==> IsSecret(secretKeys, section, key))
  {
    var read := Masked(values, secretKeys, section);
    if forall key :: key in values && values[key] == MASK ==> IsSecret(secretKeys, section, key) {
      forall key | key in values ensures Merged(read, values)[key] == values[key] {}
      assert Merged(read, values) == values;
    } else {
      var key :| key in values && values[key] == MASK && !IsSecret(secretKeys, section, key);
      assert read[key] == MASK;
    }
  }

  /** A merge never lets the mask literal into the store. */
  lemma MergeIsMaskFree(values: Values, previous: Values, secretKeys: seq<string>, section: string)
    requires MaskFree(previous) && Mergeable(values, previous, secretKeys, section)
    ensures MaskFree(Merged(values, previous))
  {
    forall key | key in values ensures Merged(values, previous)[key] != MASK {
      assert values[key] == MASK ==> MayRestore(previous, secretKeys, section, key);
    }
  }

  /** What a merge carries over is hidden again in the next masked read. */
  lemma CarriedSecretStaysHidden(
      values: Values, previous: Values, secretKeys: seq<string>, section: string, key: string)
    requires Mergeable(values, previous, secretKeys, section)
    requires key in values && values[key] == MASK
    ensures Merged(values, previous)[key] == previous[key]
    ensures Masked(Merged(values, previous), secretKeys, section)[key] == MASK
  {
    assert MayRestore(previous, secretKeys, section, key);
  }

  /** Two stores that a reader cannot tell apart. */
  ghost predicate LookAlike(a: Values, b: Values, secretKeys: seq<string>, section: string) {
    Masked(a, secretKeys, section) == Masked(b, secretKeys, section)
  }

  /**
   A reader learns nothing about a secret by writing: if two stored maps read the same under the old
   keys, then whatever is written under whatever new keys, the merge succeeds on both or on neither, and
   the results read the same under the new keys.
   */
  lemma WritingRevealsNothing(
      values: Values, a: Values, b: Values, oldKeys: seq<string>, newKeys: seq<string>, section: string)
    requires MaskFree(a) && MaskFree(b) && LookAlike(a, b, oldKeys, section)
    ensures Mergeable(values, a, newKeys, section) <==> Mergeable(values, b, newKeys, section)
    ensures Mergeable(values, a, newKeys, section) ==> LookAlike(Merged(values, a), Merged(values, b), newKeys, section)
  {
    var shownA, shownB := Masked(a, oldKeys, section), Masked(b, oldKeys, section);
    assert a.Keys == shownA.Keys && b.Keys == shownB.Keys;
    forall key ensures key in a ==> key in b && (a[key] == "" <==> b[key] == "") {
      assert key in a ==> shownA[key] == shownB[key];
    }
    forall key ensures MayRestore(a, newKeys, section, key) <==> MayRestore(b, newKeys, section, key) {}
    if Mergeable(values, a, newKeys, section) {
      var left, right := Merged(values, a), Merged(values, b);
      forall key | key in values
        ensures Shown(left[key], IsSecret(newKeys, section, key)) == Shown(right[key], IsSecret(newKeys, section, key))
      {
        assert values[key] == MASK ==> MayRestore(a, newKeys, section, key);
      }
      assert Masked(left, newKeys, section) == Masked(right, newKeys, section);
    }
  }

  // ---------------------------------------------------------------------------
  // The stored configurations
  // ---------------------------------------------------------------------------

  type Table = map<Id, Config>

  /** Everything else the input check looks at; it sees the merged values. */
  type InputCheck = Config -> bool

  predicate ConfigMaskFree(config: Config) {
    MaskFree(config.headers) && MaskFree(config.parameters)
  }

  ghost predicate TableMaskFree(table: Table) {
    forall id :: id in table ==> ConfigMaskFree(table[id])
  }

  function Read(config: Config): Config {
    Config(Masked(config.headers, config.secretKeys, "headers"),
           Masked(config.parameters, config.secretKeys, "parameters"), config.secretKeys)
  }

  predicate ConfigMergeable(input: Config, previous: Config) {
    && Mergeable(input.headers, previous.headers, input.secretKeys, "headers")
    && Mergeable(input.parameters, previous.parameters, input.secretKeys, "parameters")
  }

  function ConfigMerged(input: Config, previous: Config): Config {
    Config(Merged(input.headers, previous.headers), Merged(input.parameters, previous.parameters), input.secretKeys)
  }

  function Created(table: Table, id: Id, input: Config, check: InputCheck): Table {
    if id !in table && check(input) && ConfigMaskFree(input) then table[id := input] else table
  }

  function Updated(table: Table, id: Id, input: Config, check: InputCheck): Table {
    if id in table && ConfigMergeable(input, table[id]) && check(ConfigMerged(input, table[id])) then
      table[id := ConfigMerged(input, table[id])]
    else table
  }

  datatype Refusal = Invalid | NotFound

  class ApiStore {
    var table: Table

    constructor ()
      ensures table == map[]
    {
      table := map[];
    }

    method Create(id: Id, input: Config, check: InputCheck) returns (result: Result<(), Refusal>)
      requires id !in table
      modifies this
      ensures table == Created(old(table), id, input, check)
      ensures result.Ok? <==> check(input) && ConfigMaskFree(input)
      ensures table == if result.Ok? then old(table)[id := input] else old(table)
      ensures TableMaskFree(old(table)) ==> TableMaskFree(table)
    {
      if !check(input) {
        return Err(Invalid);
      }
      var sections := [input.headers, input.parameters];
      for i := 0 to |sections|
        invariant forall k :: 0 <= k < i ==> MaskFree(sections[k])
      {
        if key :| key in sections[i] && sections[i][key] == MASK {
          assert !MaskFree(sections[i]);
          return Err(Invalid);
        }
      }
      assert MaskFree(sections[0]) && MaskFree(sections[1]);
      table := table[id := input];
      return Ok(());
    }

    method Update(id: Id, input: Config, check: InputCheck) returns (result: Result<(), Refusal>)
      modifies this
      ensures table == Updated(old(table), id, input, check)
      ensures result.Ok? <==>
              id in old(table) && ConfigMergeable(input, old(table)[id]) && check(ConfigMerged(input, old(table)[id]))
      ensures result.Err? ==> (result.error == NotFound <==> id !in old(table)) && table == old(table)
      ensures result.Ok? ==>
                && table.Keys == old(table).Keys
                && IsMerged(input.headers, old(table)[id].headers, table[id].headers)
                && IsMerged(input.parameters, old(table)[id].parameters, table[id].parameters)
                && table[id].secretKeys == input.secretKeys
                && forall other :: other in table && other != id ==> table[other] == old(table)[other]
      ensures TableMaskFree(old(table)) ==> TableMaskFree(table)
    {
      if id !in table {
        return Err(NotFound);
      }
      var previous := table[id];
      var headers := MergeSecrets(input.headers, previous.headers, input.secretKeys, "headers");
      if headers.Err? {
        return Err(Invalid);
      }
      var parameters := MergeSecrets(input.parameters, previous.parameters, input.secretKeys, "parameters");
      if parameters.Err? {
        return Err(Invalid);
      }
      var merged := Config(headers.value, parameters.value, input.secretKeys);
      if !check(merged) {
        return Err(Invalid);
      }
      if TableMaskFree(table) {
        MergeIsMaskFree(input.headers, previous.headers, input.secretKeys, "headers");
        MergeIsMaskFree(input.parameters, previous.parameters, input.secretKeys, "parameters");
      }
      table := table[id := merged];
      return Ok(());
    }

    method Delete(id: Id) returns (result: Result<(), Refusal>)
      modifies this
      ensures table == old(table) - {id}
      ensures result == if id in old(table) then Ok(()) else Err(NotFound)
    {
      if id !in table {
        return Err(NotFound);
      }
      table := table - {id};
      return Ok(());
    }

    method Show(id: Id) returns (result: Result<Config, Refusal>)
      ensures result == if id in table then Ok(Read(table[id])) else Err(NotFound)
    {
      if id !in table {
        return Err(NotFound);
      }
      var config := table[id];
      var headers := MaskSecrets(config.headers, config.secretKeys, "headers");
      var parameters := MaskSecrets(config.parameters, config.secretKeys, "parameters");
      return Ok(Config(headers, parameters, config.secretKeys));
    }
  }

  datatype Action =
    | Creating(id: Id, input: Config, check: InputCheck)
    | Updating(id: Id, input: Config, check: InputCheck)
    | Deleting(id: Id)

  ghost function Step(table: Table, action: Action): Table {
    match action
    case Creating(id, input, check) => Created(table, id, input, check)
    case Updating(id, input, check) => Updated(table, id, input, check)
    case Deleting(id) => table - {id}
  }

  ghost function Run(table: Table, actions: seq<Action>): Table {
    if actions == [] then table else Step(Run(table, actions[..|actions| - 1]), actions[|actions| - 1])
  }

  /** No run of creations, updates and deletions ever stores the mask literal. */
  lemma {:induction false} StoreIsMaskFree(actions: seq<Action>)
    ensures TableMaskFree(Run(map[], actions))
  {
    if actions != [] {
      var before := Run(map[], actions[..|actions| - 1]);
      StoreIsMaskFree(actions[..|actions| - 1]);
      match actions[|actions| - 1] {
        case Updating(id, input, check) =>
          if id in before && ConfigMergeable(input, before[id]) {
            MergeIsMaskFree(input.headers, before[id].headers, input.secretKeys, "headers");
            MergeIsMaskFree(input.parameters, before[id].parameters, input.secretKeys, "parameters");
          }
        case _ =>
      }
    }
  }

  /** In every reachable store, reading a configuration and writing it back changes nothing. */
  lemma ReadThenWriteIsIdentity(actions: seq<Action>, id: Id, check: InputCheck)
    requires id in Run(map[], actions)
    ensures
      var table := Run(map[], actions);
      ConfigMergeable(Read(table[id]), table[id]) && Updated(table, id, Read(table[id]), check) == table
  {
    var table := Run(map[], actions);
    var config := table[id];
    StoreIsMaskFree(actions);
    assert ConfigMaskFree(config);
    WriteBackRestores(config.headers, config.secretKeys, "headers");
    WriteBackRestores(config.parameters, config.secretKeys, "parameters");
  }
}

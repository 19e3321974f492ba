/**
 * The subscription transform of `SubscriptionMixin`: a load gate set once at
 * construction, and `inject_mixin`, which rewrites a parsed subscription
 * document by filtering its proxy groups, dropping its rules and merging the
 * mixin's keys into it.
 */
module Mixin {
  import opened Yaml
  import opened ListUnion
  import opened ProxyGroups

  const GroupsKey: string := "proxy-groups"
  const RulesKey: string := "rules"

  /** How reading the mixin file at start-up turned out. */
  datatype LoadOutcome =
    | Loaded(data: Value)   // parsed, whatever value the file holds (null for an empty file)
    | FileMissing           // the file does not exist
    | Malformed             // the file is not valid YAML

  // ---------------------------------------------------------------------------
  // The rewrite, stated as functions of the document and the mixin.
  // ---------------------------------------------------------------------------

  /** What the document holds at `proxy-groups`, an empty list when absent. */
  function GroupsEntry(doc: map<string, Value>): (r: Value)
    ensures GroupsKey in doc ==> r == doc[GroupsKey]
    ensures GroupsKey !in doc ==> FilterProxyGroups(r) == Ok([])
  {
    if GroupsKey in doc then doc[GroupsKey] else Seq([])
  }

  /** The document after the group filter and the removal of `rules`: the
      filtered list replaces `proxy-groups` only when it is not empty. */
  function Prepare(doc: map<string, Value>): (r: Result<map<string, Value>>)
    ensures r.Ok? ==> r.value.Keys == doc.Keys - {RulesKey}
  {
    var filtered := FilterProxyGroups(GroupsEntry(doc));
    if filtered.Err? then Err(filtered.error)
    else
      var grouped := if filtered.value != [] then doc[GroupsKey := Seq(filtered.value)] else doc;
      Ok(grouped - {RulesKey})
  }

  /** The value a mixin entry leaves at its key: the list union when the
      document and the mixin both hold a list there, the mixin's value
      otherwise. */
  function MergeEntry(doc: map<string, Value>, key: string, value: Value): (r: Value)
    ensures r.Seq? <==> value.Seq?
    ensures !value.Seq? ==> r == value
    ensures value.Seq? ==> forall x :: x in value.items ==> x in r.items
    ensures value.Seq? && key in doc && doc[key].Seq? ==>
              |doc[key].items| <= |r.items| && r.items[..|doc[key].items|] == doc[key].items
  {
    if key in doc && doc[key].Seq? && value.Seq? then
      AppendAbsentMembers(doc[key].items, value.items);
      Seq(AppendAbsent(doc[key].items, value.items))
    else value
  }

  /** The document after every mixin entry has been merged into it. */
  function MergeAll(doc: map<string, Value>, mixin: map<string, Value>): (r: map<string, Value>)
    ensures r.Keys == doc.Keys + mixin.Keys
  {
    map key | key in doc.Keys + mixin.Keys :: if key in mixin then MergeEntry(doc, key, mixin[key]) else doc[key]
  }

  /** The whole rewrite of a loaded mixin applied to a parsed document, with
      the failures in the order the steps meet them. */
  function Rewrite(original: Value, mixinData: Value): (r: Result<map<string, Value>>)
    ensures r.Err? <==> !original.Map? || Prepare(original.m).Err? || !mixinData.Map?
  {
    if !original.Map? then Err(DocumentNotMapping)
    else
      var prepared := Prepare(original.m);
      if prepared.Err? then Err(prepared.error)
      else if !mixinData.Map? then Err(MixinNotMapping)
      else Ok(MergeAll(prepared.value, mixinData.m))
  }

  // ---------------------------------------------------------------------------
  // The object: the load gate and the two operations.
  // ---------------------------------------------------------------------------

  class SubscriptionMixin {
    var isLoaded: bool
    var mixinData: Value

    /** Records the outcome of loading the mixin: loaded with its data, or
        not loaded with an empty mapping. */
    constructor (outcome: LoadOutcome)
      ensures isLoaded <==> outcome.Loaded?
      ensures mixinData == if outcome.Loaded? then outcome.data else Map(map[])
    {
      isLoaded := false;
      mixinData := Map(map[]);
      if outcome.Loaded? {
        mixinData := outcome.data;
        isLoaded := true;
      }
    }

    /** Scans the groups in order and returns the first selector, renamed,
        as a one-element list, or the empty list when there is none. */
    static method FilterAndRenameProxyGroups(proxyGroups: Value) returns (r: Result<seq<Value>>)
      ensures r == FilterProxyGroups(proxyGroups)
    {
      match proxyGroups {
        case Seq(groups) =>
          var i := 0;
          while i < |groups|
            invariant 0 <= i <= |groups|
            invariant FilterGroups(groups[i..]) == FilterGroups(groups)
          {
            var group := groups[i];
            if !group.Map? {
              return Err(GroupNotMapping);
            }
            if IsSelector(group) {
              return Ok([Renamed(group)]);
            }
            i := i + 1;
          }
          return Ok([]);
        case Str(s) =>
          r := if s == "" then Ok([]) else Err(GroupNotMapping);
        case Map(m) =>
          r := if m == map[] then Ok([]) else Err(GroupNotMapping);
        case _ =>
          r := Err(GroupsNotIterable);
      }
    }

    /** Refuses to run unless the mixin loaded; otherwise rewrites the
        document step by step. The mixin itself is never changed. */
    method InjectMixin(original: Value) returns (r: Result<map<string, Value>>)
      ensures !isLoaded ==> r == Err(NotLoaded)
      ensures isLoaded ==> r == Rewrite(original, mixinData)
    {
      if !isLoaded {
        return Err(NotLoaded);
      }
      if !original.Map? {
        return Err(DocumentNotMapping);
      }
      var doc := original.m;

      var proxyGroups := if GroupsKey in doc then doc[GroupsKey] else Seq([]);
      var filtered := FilterAndRenameProxyGroups(proxyGroups);
      if filtered.Err? {
        return Err(filtered.error);
      }
      if filtered.value != [] {
        doc := doc[GroupsKey := Seq(filtered.value)];
      }

      doc := doc - {RulesKey};

      if !mixinData.Map? {
        return Err(MixinNotMapping);
      }
      var mixin := mixinData.m;
      ghost var base := doc;
      var pending := mixin.Keys;
      while pending != {}
        invariant pending <= mixin.Keys
        invariant doc == MergeAll(base, mixin - pending)
        decreases pending
      {
        var key :| key in pending;
        var value := mixin[key];
        MergeAllStep(base, mixin - pending, key, value);
        if key in doc && doc[key].Seq? && value.Seq? {
          var extended := ExtendAbsent(doc[key].items, value.items);
          doc := doc[key := Seq(extended)];
        } else {
          doc := doc[key := value];
        }
        assert (mixin - pending)[key := value] == mixin - (pending - {key});
        pending := pending - {key};
      }
      assert mixin - {} == mixin;
      return Ok(doc);
    }
  }

  /** Merging one more mixin entry, whose key has not been merged yet, sets
      that key as `MergeEntry` says and leaves every other key alone. */
  lemma MergeAllStep(base: map<string, Value>, done: map<string, Value>, key: string, value: Value)
    requires key !in done
    ensures var merged := MergeAll(base, done);
            MergeAll(base, done[key := value]) == merged[key := MergeEntry(merged, key, value)]
  {
  }
}

/**
 * What the rewrite promises about its result, key by key.
 */
module MixinProperties {
  import opened Yaml
  import opened ListUnion
  import opened ProxyGroups
  import opened Mixin

  /** The result's keys are the document's keys without `rules`, plus the
      mixin's keys. */
  lemma RewriteKeys(original: Value, mixinData: Value)
    requires Rewrite(original, mixinData).Ok?
    ensures Rewrite(original, mixinData).value.Keys == (original.m.Keys - {RulesKey}) + mixinData.m.Keys
  {
  }

  /** The document's own `rules` never survives: the result has `rules`
      exactly when the mixin has it, and then holds the mixin's value. */
  lemma RewriteRules(original: Value, mixinData: Value)
    requires Rewrite(original, mixinData).Ok?
    ensures RulesKey in Rewrite(original, mixinData).value <==> RulesKey in mixinData.m
    ensures RulesKey in mixinData.m ==> Rewrite(original, mixinData).value[RulesKey] == mixinData.m[RulesKey]
  {
  }

  /** The group step on its own, whatever the mixin holds: with no matching
      group `proxy-groups` is unchanged if present and still absent if absent;
      with the first selector of a list at index `i` it becomes that group,
      renamed, alone. */
  lemma PrepareGroups(doc: map<string, Value>)
    ensures FilterProxyGroups(GroupsEntry(doc)) == Ok([]) ==>
              && Prepare(doc).Ok?
              && (GroupsKey in Prepare(doc).value <==> GroupsKey in doc)
              && (GroupsKey in doc ==> Prepare(doc).value[GroupsKey] == doc[GroupsKey])
    ensures GroupsKey in doc && doc[GroupsKey].Seq? ==>
              forall i :: 0 <= i < |doc[GroupsKey].items| && PassedOver(doc[GroupsKey].items, i)
                          && IsSelector(doc[GroupsKey].items[i]) ==>
                Prepare(doc) == Ok((doc - {RulesKey})[GroupsKey := Seq([Renamed(doc[GroupsKey].items[i])])])
  {
    if GroupsKey in doc && doc[GroupsKey].Seq? {
      FilterGroupsOutcome(doc[GroupsKey].items);
      forall i | 0 <= i < |doc[GroupsKey].items| && PassedOver(doc[GroupsKey].items, i)
                 && IsSelector(doc[GroupsKey].items[i])
        ensures Prepare(doc) == Ok((doc - {RulesKey})[GroupsKey := Seq([Renamed(doc[GroupsKey].items[i])])])
      {
        var grouped := doc[GroupsKey := Seq([Renamed(doc[GroupsKey].items[i])])];
        assert grouped - {RulesKey} == (doc - {RulesKey})[GroupsKey := Seq([Renamed(doc[GroupsKey].items[i])])];
      }
    }
  }

  /** With no matching group, `proxy-groups` is left as it was: unchanged if
      present, still absent if absent (when the mixin does not set it). */
  lemma RewriteGroupsUnmatched(original: Value, mixinData: Value)
    requires original.Map? && mixinData.Map? && GroupsKey !in mixinData.m
    requires FilterProxyGroups(GroupsEntry(original.m)) == Ok([])
    ensures Rewrite(original, mixinData).Ok?
    ensures GroupsKey in Rewrite(original, mixinData).value <==> GroupsKey in original.m
    ensures GroupsKey in original.m ==> Rewrite(original, mixinData).value[GroupsKey] == original.m[GroupsKey]
  {
  }

  /** With a list of groups whose first selector sits at index `i`,
      `proxy-groups` becomes that one group, renamed (when the mixin does not
      set it). */
  lemma RewriteGroupsMatched(original: Value, mixinData: Value, i: nat)
    requires original.Map? && mixinData.Map? && GroupsKey !in mixinData.m
    requires GroupsKey in original.m && original.m[GroupsKey].Seq?
    requires i < |original.m[GroupsKey].items|
    requires PassedOver(original.m[GroupsKey].items, i) && IsSelector(original.m[GroupsKey].items[i])
    ensures Rewrite(original, mixinData).Ok?
    ensures Rewrite(original, mixinData).value[GroupsKey] == Seq([Renamed(original.m[GroupsKey].items[i])])
  {
    FilterGroupsOutcome(original.m[GroupsKey].items);
  }

  /** A key that is neither `rules` nor `proxy-groups`, and that the mixin
      does not set, keeps its original value. */
  lemma RewriteUntouched(original: Value, mixinData: Value, key: string)
    requires Rewrite(original, mixinData).Ok?
    requires key in original.m && key !in mixinData.m && key != RulesKey && key != GroupsKey
    ensures Rewrite(original, mixinData).value[key] == original.m[key]
  {
  }

  /** A mixin key that the prepared document lacks, or where either side is
      not a list, ends up holding the mixin's value. */
  lemma MergeAllOverwrites(doc: map<string, Value>, mixin: map<string, Value>, key: string)
    requires key in mixin && !(key in doc && doc[key].Seq? && mixin[key].Seq?)
    ensures MergeAll(doc, mixin)[key] == mixin[key]
  {
  }

  /** A key holding a list on both sides ends up holding the original list,
      unchanged and in order, followed by the mixin elements in mixin order
      that neither the original list nor an earlier mixin element holds; no
      appended element equals any element before it. */
  lemma MergeAllUnion(doc: map<string, Value>, mixin: map<string, Value>, key: string)
    requires key in doc && key in mixin && doc[key].Seq? && mixin[key].Seq?
    ensures var merged := MergeAll(doc, mixin)[key];
            var list, extra := doc[key].items, mixin[key].items;
            && merged.Seq?
            && merged.items == list + Introduced(list, extra)
            && (forall x :: x in merged.items <==> x in list || x in extra)
            && (forall i, j :: 0 <= i < j < |merged.items| && |list| <= j ==> merged.items[i] != merged.items[j])
  {
    var list, extra := doc[key].items, mixin[key].items;
    AppendAbsentIsIntroduced(list, extra);
    AppendAbsentMembers(list, extra);
    AppendAbsentNoRepeat(list, extra);
  }

  /** Merging the same mixin a second time changes nothing. */
  lemma MergeAllIdempotent(doc: map<string, Value>, mixin: map<string, Value>)
    ensures MergeAll(MergeAll(doc, mixin), mixin) == MergeAll(doc, mixin)
  {
    var once := MergeAll(doc, mixin);
    forall key | key in mixin
      ensures MergeEntry(once, key, mixin[key]) == once[key]
    {
      var value := mixin[key];
      if value.Seq? {
        if key in doc && doc[key].Seq? {
          AppendAbsentIdempotent(doc[key].items, value.items);
        } else {
          AppendAbsentSaturated(value.items, value.items);
        }
      }
    }
  }

  /** A worked case of the group filter: among groups named `other`,
      `proxy` and `x`, only `proxy` survives, renamed. */
  lemma FilterExample()
    ensures FilterGroups([Map(map["name" := Str("other")]), Map(map["name" := Str("proxy")]), Map(map["name" := Str("x")])])
            == Ok([Map(map["name" := Str(SelectionName)])])
  {
    var groups := [Map(map["name" := Str("other")]), Map(map["name" := Str("proxy")]), Map(map["name" := Str("x")])];
    assert !IsSelector(groups[0]) && IsSelector(groups[1]);
    assert groups[1..][0] == groups[1];
    assert FilterGroups(groups) == Ok([Renamed(groups[1])]);
    assert map["name" := Str("proxy")]["name" := Str(SelectionName)] == map["name" := Str(SelectionName)];
  }

  /** Worked cases of the list union: `[y, z]` merged with `[x, y]` becomes
      `[y, z, x]`; a mixin list that repeats `x` adds it once. */
  lemma UnionExamples()
    ensures AppendAbsent([Str("y"), Str("z")], [Str("x"), Str("y")]) == [Str("y"), Str("z"), Str("x")]
    ensures AppendAbsent([Str("y")], [Str("x"), Str("x")]) == [Str("y"), Str("x")]
  {
  }
}

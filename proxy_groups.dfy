/**
 * The proxy-group filter of `SubscriptionMixin.filter_and_rename_proxy_groups`:
 * the first group whose `name` is one of the accepted selector labels is kept,
 * renamed to `Selection`, and becomes the whole list; with no such group the
 * filter returns the empty list.
 */
module ProxyGroups {
  import opened Yaml

  /** The accepted labels: "代理" (written with escapes), "proxy", "Proxy". */
  const SelectorNames: seq<string> := ["\U{4EE3}\U{7406}", "proxy", "Proxy"]

  /** The label the selected group is given. */
  const SelectionName: string := "Selection"

  /** A group whose `name` equals one of the selector labels exactly. A group
      without `name`, or whose `name` is not a string, never matches. */
  predicate IsSelector(group: Value): (r: bool)
    ensures r <==> group.Map? && "name" in group.m
                   && group.m["name"] in [Str("\U{4EE3}\U{7406}"), Str("proxy"), Str("Proxy")]
    ensures r ==> group.m["name"] != Str(SelectionName)
  {
    group.Map? && "name" in group.m && group.m["name"].Str? && group.m["name"].s in SelectorNames
  }

  /** Every group before index `i` is a mapping and not a selector, so the
      scan reaches index `i`. */
  predicate PassedOver(groups: seq<Value>, i: nat)
    requires i <= |groups|
  {
    forall j :: 0 <= j < i ==> groups[j].Map? && !IsSelector(groups[j])
  }

  /** The group with its `name` set to `Selection`; no other field changes. */
  function Renamed(group: Value): (r: Value)
    requires group.Map?
    ensures r.Map? && r.m.Keys == group.m.Keys + {"name"}
    ensures r.m["name"] == Str(SelectionName) && !IsSelector(r)
    ensures forall k :: k in group.m && k != "name" ==> r.m[k] == group.m[k]
  {
    Map(group.m["name" := Str(SelectionName)])
  }

  /** The filter over a list of groups. A group reached by the scan that is
      not a mapping has no `get`, which fails. */
  function FilterGroups(groups: seq<Value>): (r: Result<seq<Value>>)
    ensures r.Err? ==> r.error == GroupNotMapping
    ensures r.Ok? ==> |r.value| <= 1
    ensures r.Ok? && r.value != [] ==> r.value[0].Map? && "name" in r.value[0].m && r.value[0].m["name"] == Str(SelectionName)
    decreases |groups|
  {
    if groups == [] then Ok([])
    else if !groups[0].Map? then Err(GroupNotMapping)
    else if IsSelector(groups[0]) then Ok([Renamed(groups[0])])
    else FilterGroups(groups[1..])
  }

  /** The filter over whatever the document holds at `proxy-groups`. Besides
      a list, an empty string or an empty mapping iterates to nothing; a
      non-empty string or mapping iterates to strings, which have no `get`;
      null, booleans and numbers cannot be iterated at all. */
  function FilterProxyGroups(proxyGroups: Value): (r: Result<seq<Value>>)
    ensures r.Ok? ==> |r.value| <= 1
    ensures r.Err? <==> (proxyGroups.Seq? && FilterGroups(proxyGroups.items).Err?)
                        || (proxyGroups.Str? && proxyGroups.s != "")
                        || (proxyGroups.Map? && proxyGroups.m != map[])
                        || proxyGroups.Null? || proxyGroups.Bool? || proxyGroups.Int?
  {
    match proxyGroups
    case Seq(items) => FilterGroups(items)
    case Str(s) => if s == "" then Ok([]) else Err(GroupNotMapping)
    case Map(m) => if m == map[] then Ok([]) else Err(GroupNotMapping)
    case _ => Err(GroupsNotIterable)
  }

  /** The filter's outcome, case by case: the empty list exactly when the scan
      passes every group; the renamed first selector when the scan reaches
      one; a failure when the scan reaches a group that is not a mapping. */
  lemma {:induction false} FilterGroupsOutcome(groups: seq<Value>)
    ensures FilterGroups(groups) == Ok([]) <==> PassedOver(groups, |groups|)
    ensures forall i :: 0 <= i < |groups| && PassedOver(groups, i) && IsSelector(groups[i]) ==>
              FilterGroups(groups) == Ok([Renamed(groups[i])])
    ensures forall i :: 0 <= i < |groups| && PassedOver(groups, i) && !groups[i].Map? ==>
              FilterGroups(groups) == Err(GroupNotMapping)
    decreases |groups|
  {
    if groups != [] {
      var rest := groups[1..];
      FilterGroupsOutcome(rest);
      assert forall i :: 1 <= i <= |groups| && PassedOver(groups, i) ==> PassedOver(rest, i - 1);
      assert PassedOver(rest, |rest|) && groups[0].Map? && !IsSelector(groups[0]) ==> PassedOver(groups, |groups|);
    }
  }

  /** A non-empty result is the renamed first selector of the list. */
  lemma {:induction false} FilterGroupsSelects(groups: seq<Value>)
    requires FilterGroups(groups).Ok? && FilterGroups(groups).value != []
    ensures exists i :: 0 <= i < |groups| && PassedOver(groups, i) && IsSelector(groups[i])
                        && FilterGroups(groups).value == [Renamed(groups[i])]
    decreases |groups|
  {
    if IsSelector(groups[0]) {
      assert PassedOver(groups, 0);
    } else {
      var rest := groups[1..];
      FilterGroupsSelects(rest);
      var i :| 0 <= i < |rest| && PassedOver(rest, i) && IsSelector(rest[i])
               && FilterGroups(rest).value == [Renamed(rest[i])];
      assert PassedOver(groups, i + 1);
    }
  }
}

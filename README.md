# SubscriptionMixin: the injection transform, in Dafny

SubscriptionMixin is a small service. It fetches a proxy-subscription
document (YAML) and merges a local "mixin" document into it. It keeps only one
proxy group, renamed `Selection`, drops the document's `rules`, and returns
the result. This project models the core of that service, the class
`SubscriptionMixin`:

- the load gate set by its constructor (`is_loaded`, `mixin_data`);
- the proxy-group filter `filter_and_rename_proxy_groups`;
- the mapping rewrite of `inject_mixin`: replace `proxy-groups`, pop
  `rules`, merge every mixin key.

Documents are parsed YAML values: the datatype `Yaml.Value` (null, booleans,
integers, strings, lists, string-keyed mappings). The exceptions the Python
code raises on malformed input become `Yaml.Fault` values in a `Result`. Each
one is raised before anything observable changes, since the document is built
fresh per request and discarded on failure:

- `NotLoaded`: line 40.
- `DocumentNotMapping`: `.get` on a document that is not a mapping, line 46.
- `GroupsNotIterable` and `GroupNotMapping`: iterating `proxy-groups` and
  calling `.get` on a group, lines 29-31.
- `MixinNotMapping`: `.items()` on a mixin that is not a mapping, for example
  `None` from an empty mixin file, line 57.

Layout:

- `yaml_value.dfy`, module `Yaml`: values, faults, `Result`.
- `proxy_groups.dfy`, module `ProxyGroups`: the selector labels, the rename,
  the filter as a specification function, and lemmas about it.
- `list_union.dfy`, module `ListUnion`: the list union of line 60.
  `AppendAbsent` is the specification function; `ExtendAbsent` is the
  element-by-element `extend`. The module also holds a reference
  description (`Introduced`) and the union's lemmas.
- `subscription_mixin.dfy`, module `Mixin`: the class
  `SubscriptionMixin` (constructor, `FilterAndRenameProxyGroups`,
  `InjectMixin`) and the specification of the rewrite (`Prepare`,
  `MergeAll`, `Rewrite`).
- `subscription_mixin.dfy`, module `MixinProperties`: what the rewrite
  promises, key by key.

`InjectMixin` is imperative, like the source. It reassigns a local mapping
with the group replacement, the `rules` removal, and one key assignment per
mixin entry. Its postcondition equates the result with `Rewrite`.

The loop over the mixin's keys picks them in an arbitrary order. Because the
method is proved for every choice, the result does not depend on the order of
the mixin's keys.

The list union at line 60 passes a lazy generator to `list.extend`. CPython
appends one element at a time, so each `x not in original_yaml[key]` test
also sees the mixin elements appended earlier by the same call. Repeated
elements inside the mixin's list are therefore added only once. A reading
that compares mixin elements only with the original list would keep such
repeats. The model follows the code (`AppendAbsent`). As a consequence,
merging the same mixin twice is idempotent (`MergeAllIdempotent`) even when
the mixin's lists repeat elements.

## Model

| member | source | states |
|---|---|---|
| `Mixin.SubscriptionMixin.constructor` | main.py:12-19 | a successful load sets `isLoaded` and keeps the loaded data; a missing or malformed file leaves `isLoaded` false and the mixin an empty mapping |
| `Mixin.SubscriptionMixin.InjectMixin` | main.py:38-63 | without a loaded mixin the call fails with `NotLoaded` whatever the document; otherwise its result is the rewrite `Rewrite` of the document by the mixin, and nothing else changes |
| `Mixin.SubscriptionMixin.FilterAndRenameProxyGroups` | main.py:28-36 | the scan with early return yields exactly the filter `FilterProxyGroups`; that filter keeps at most one group |
| `ProxyGroups.IsSelector` | main.py:31 | a group matches exactly when it is a mapping whose `name` equals the string `代理`, `proxy` or `Proxy`; a matching name is never `Selection` |
| `ProxyGroups.Renamed` | main.py:33 | the renamed group has `name` = `Selection`, no longer matches a selector label, and keeps every other field unchanged |
| `ProxyGroups.FilterGroups` | main.py:28-36 | the filter's result is the empty list or a single group named `Selection`; its only failure is a scanned group that is not a mapping |
| `ProxyGroups.FilterProxyGroups` | main.py:29-31 | fails exactly when iteration of `proxy-groups` reaches a non-mapping group, or the value is a non-empty string or mapping, null, a boolean or a number; otherwise yields at most one group |
| `ProxyGroups.FilterGroupsOutcome` | main.py:29-36 | the result is `[]` exactly when every group is a non-matching mapping; when the scan reaches a selector at index i the result is that group renamed; when it reaches a non-mapping first the filter fails |
| `ProxyGroups.FilterGroupsSelects` | main.py:29-35 | a non-empty result is the renamed first group, in list order, whose `name` is one of the three labels |
| `ListUnion.ExtendAbsent` | main.py:60 | the element-by-element `extend` builds exactly `AppendAbsent`: each mixin element is appended only if the growing list does not hold it yet |
| `ListUnion.AppendAbsentMembers` | main.py:60 | the union holds exactly the elements of the original list and of the mixin list |
| `ListUnion.AppendAbsent` | main.py:60 | the list after appending each mixin element not yet in the growing list starts with the original list unchanged and in order, and grows by at most the mixin list's length |
| `ListUnion.AppendAbsentNoRepeat` | main.py:60 | no appended element equals any element before it |
| `ListUnion.AppendAbsentIsIntroduced` | main.py:60 | what is appended is the mixin elements, in mixin order, that are the first of their value in the mixin list and absent from the original list |
| `ListUnion.AppendAbsentSaturated` | main.py:60 | extending a list that already holds every mixin element leaves it unchanged |
| `ListUnion.AppendAbsentIdempotent` | main.py:58-60 | a second union with the same mixin list changes nothing |
| `Mixin.GroupsEntry` | main.py:46 | the document's `proxy-groups` value when present; when absent, a value the filter turns into the empty list |
| `Mixin.Prepare` | main.py:46-54 | after the group filter and the `rules` pop the document's keys are its original keys without `rules` |
| `Mixin.MergeEntry` | main.py:58-63 | the merged value is a list exactly when the mixin value is; a non-list mixin value is taken as is; a mixin list ends up wholly inside the result; a document list on the same key is kept as the result's unchanged prefix |
| `Mixin.MergeAll` | main.py:57-63 | after the merge the keys are the document's keys plus the mixin's keys |
| `Mixin.Rewrite` | main.py:42-63 | the rewrite fails exactly when the document is not a mapping, the group filter fails, or the mixin is not a mapping |
| `Mixin.MergeAllStep` | main.py:57-63 | merging one not-yet-merged mixin key sets only that key, to the union or the mixin value |
| `MixinProperties.RewriteKeys` | main.py:46-63 | the result's keys are the document's keys without `rules`, plus the mixin's keys |
| `MixinProperties.RewriteRules` | main.py:54-63 | the result has `rules` exactly when the mixin has it, and then holds the mixin's value; the document's `rules` never survives |
| `MixinProperties.PrepareGroups` | main.py:46-51 | whatever the mixin holds, the group step leaves `proxy-groups` unchanged if present and still absent if absent when no group matches, and replaces it by the one renamed first selector when a list has one |
| `MixinProperties.RewriteGroupsUnmatched` | main.py:46-51 | when the mixin does not set `proxy-groups` and no group matches, the result's `proxy-groups` is unchanged if present and still absent if absent |
| `MixinProperties.RewriteGroupsMatched` | main.py:46-51 | when the mixin does not set `proxy-groups` and the first selector is at index i, the result's `proxy-groups` is the one-element list holding that group renamed |
| `MixinProperties.RewriteUntouched` | main.py:46-63 | a key other than `rules` and `proxy-groups` that the mixin does not set keeps its original value |
| `MixinProperties.MergeAllOverwrites` | main.py:61-63 | a mixin key absent from the document, or with a non-list on either side, ends up holding the mixin's value |
| `MixinProperties.MergeAllUnion` | main.py:58-60 | a key holding lists on both sides ends up holding the original list followed by the introduced mixin elements; it holds exactly the elements of both lists, and no appended element repeats an earlier one |
| `MixinProperties.MergeAllIdempotent` | main.py:57-63 | running the merge loop again with the same mixin on its own output changes nothing |
| `MixinProperties.FilterExample` | main.py:28-36 | among groups `other`, `proxy`, `x` only `proxy` survives, renamed |
| `MixinProperties.UnionExamples` | main.py:60 | `[y, z]` merged with `[x, y]` is `[y, z, x]`; a mixin element repeated in the mixin list is added once |

## Left out

- YAML text: parsing with `yaml.safe_load` and serialising with `yaml.dump` (main.py:24, 43, 66) are library calls. The model works on parsed values, so a document that is not valid YAML, and the key order and layout of the output text, are not modelled.
- File I/O: reading the mixin file (main.py:22-25) is replaced by a `LoadOutcome` input. The failure message printed when loading fails (main.py:19) is console output and is not modelled. Other exceptions that escape the constructor (permissions, encoding errors) are not modelled. The standalone `__main__` block (main.py:119-125) is not modelled.
- The HTTP layer: the FastAPI endpoint, the `requests.get` fetch and the mapping of errors to status codes (main.py:70-116) are not modelled.
- URL validation (main.py:74-88): it depends on the `re` and `urllib.parse` libraries and is not modelled.
- Values: floats, timestamps, binary and other YAML scalar types are absent, and mapping keys are strings only. The `not in` test uses structural equality on `Value`, not Python's cross-type equality (`True == 1`).
- Aliasing: YAML anchors can make one Python list or dict appear under several keys of the document. An in-place `extend` or rename would then show up at every such place. The model uses value semantics, so the rename at line 33 and the `extend` at line 60 change only the entry they are applied to.
- Mapping key order: Python dicts keep insertion order and the mixin is iterated in that order. The model's mappings are unordered; the proved result is the same for every iteration order.

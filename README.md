# nico2finder query construction, in Dafny

This project models the query-construction core of `nico2finder/finder.py`, a
small client for the Niconico video search API. The model covers:

- the `Sort` constants, modelled as an enumeration `SortOrder` that maps each
  order to its wire token;
- `SearchFilter`, whose constructor turns optional keyword arguments into a
  mapping of bracketed `filters[...]` keys:
  - the eleven scalar options, via `__set_attr`;
  - `tag` and `genre`, each a scalar or a list/tuple, via `__set_attr_multiple`;
  - the read-only accessor `get_query`;
- `NicoVideoFinder`:
  - its nineteen-entry response-field table;
  - `set_response_fields`, which overrides known fields and ignores unknown
    ones;
  - `current_response_fields`;
  - the parameter mapping that `find_video` assembles before it sends the
    request.

Python's insertion-ordered `dict` is modelled as a sequence of key/value pairs
(module `OrderedDict`):

- assigning to a present key overwrites its value in place;
- assigning to a new key appends it;
- `update` assigns the other mapping's entries in order.

The two classes whose fields the source updates, `SearchFilter` and
`NicoVideoFinder`, are Dafny classes. Their methods are specified against
reference functions:

- `Query` is the mapping a filter built from given options holds;
- `Overridden` is the field table after a `set_response_fields` call;
- `ReservedParams` and `FieldsParam` give the six reserved request
  parameters.

Lemmas about these functions state what the source and its tests promise.
`%d` formatting appears as `Numeral`, proved injective through its inverse
`ParseNumeral`. `','.join` appears as `JoinComma`, with `SplitComma` as its
inverse.

Notes on the source:

- The genre option's keys are `filters[genre][i]`. The constructor uses the
  template `[genre][%d]` (finder.py line 78), and the genre tests expect
  those keys.
- A list or tuple element that is `None` produces no key. The later elements
  keep their own indices, because `__set_attr` skips `None` values and
  `enumerate` still counts them. So a sequence of N values yields exactly N
  keys only when none of them is `None` (`IndexedAllGiven`). In general, key
  i holds element i exactly when that element is given (`IndexedGet`).

## Model

| member | source | states |
|---|---|---|
| Finder.SortToken | nico2finder/finder.py:28-36 | every sort token is a `+` or `-` sign followed by one of the nineteen response-field names |
| Finder.SortTokenDirection | nico2finder/finder.py:17-36 | a token starts with `+` exactly for the orders documented as ascending (oldest, fewest comments, fewest plays, shortest) |
| Finder.SortTokenInjective | nico2finder/finder.py:28-36 | distinct sort orders have distinct tokens |
| Text.Numeral | nico2finder/finder.py:86-90 | `%d` of an index is a non-empty string of digits with a leading zero only for zero |
| Text.ParseNumeralInverts | nico2finder/finder.py:86-90 | reading the numeral of n back gives n |
| Text.NumeralInjective | nico2finder/finder.py:86-90 | different indices give different numerals |
| Text.JoinComma | nico2finder/finder.py:165 | `','.join(xs)`: the names separated by commas, `""` for none; SplitJoin states that splitting it at commas gives comma-free names back |
| Text.SplitJoin | nico2finder/finder.py:165 | splitting a comma-join of comma-free names at commas gives the names back |
| OrderedDict.Get | nico2finder/finder.py:145 | a lookup finds nothing exactly when the key is absent |
| OrderedDict.Put | nico2finder/finder.py:82 | assignment keeps the key sequence when the key is present, appends the key otherwise, and keeps keys distinct |
| OrderedDict.PutGet | nico2finder/finder.py:82 | after `d[k] = v`, k holds v and every other key holds what it held |
| OrderedDict.Update | nico2finder/finder.py:172 | `d.update(e)`: e's entries assigned with Put one after another in e's order; UpdateDisjoint states that new keys are appended in order |
| OrderedDict.UpdateDisjoint | nico2finder/finder.py:171-172 | `d.update(e)` with only new keys appends e after d |
| Finder.Assigned | nico2finder/finder.py:80-82 | the effect of `__set_attr` on a mapping: `filters` + key assigned, nothing for `None`; AssignedValid and ScalarStep state what it preserves and appends |
| Finder.AssignedValid | nico2finder/finder.py:80-82 | `__set_attr` keeps a filter mapping valid: keys stay distinct and all begin with `filters` |
| Finder.Query | nico2finder/finder.py:64-78 | the reference mapping of given options: scalar entries in argument order, then tag entries, then genre entries; QueryValid, QueryScalarGet, QueryAsBuilt, NoFiltersEmpty, UserIdOnly and RangeOnly state its properties |
| Finder.ScalarsEntries | nico2finder/finder.py:66-76 | an entry is present exactly when its scalar option was given, under that option's key and with the given value |
| Finder.ScalarsDistinct | nico2finder/finder.py:66-76 | the scalar options' keys never repeat |
| Finder.ScalarStep | nico2finder/finder.py:80-82 | each `__set_attr` call of the constructor lands on a fresh key, so it appends its entry or adds nothing for `None` |
| Finder.AssignedScalarsAreScalars | nico2finder/finder.py:64-76 | starting from the empty mapping, the eleven `__set_attr` calls with the constructor's keys and in its order build exactly the reference scalar entries |
| Finder.ScalarsNone | nico2finder/finder.py:80-82 | options left `None` add no entries |
| Finder.IndexSuffixInjective | nico2finder/finder.py:86-90 | the templated keys of different indices differ |
| Finder.Indexed | nico2finder/finder.py:86-88 | the entries of a list or tuple, one per non-`None` element at its own index; IndexedEntries, IndexedDistinct, IndexedGet and IndexedAllGiven state its properties |
| Finder.IndexedEntries | nico2finder/finder.py:86-88 | an entry of a list or tuple is present exactly when the element at its index is given, under that index's key |
| Finder.IndexedDistinct | nico2finder/finder.py:86-88 | the keys produced from a list or tuple never repeat |
| Finder.IndexedGet | nico2finder/finder.py:86-88 | key i holds element i when it is given and is absent when it is `None`; later indices do not shift |
| Finder.IndexedAllGiven | nico2finder/finder.py:86-88 | N given values produce exactly the keys of indices 0..N-1, in input order, each with its value |
| Finder.Expand | nico2finder/finder.py:84-90 | the entries of a `tag` or `genre` argument: none for `None`, index 0 for a scalar, Indexed for a list or tuple; ExpandOne and ExpandEntries state its properties |
| Finder.ExpandOne | nico2finder/finder.py:89-90 | a single scalar produces index 0 only |
| Finder.ExpandEntries | nico2finder/finder.py:84-90 | the keys produced for `tag` or `genre` are distinct filter keys that start with the field's first letter |
| Finder.QueryValid | nico2finder/finder.py:64-78 | every filter mapping has distinct keys, all beginning with `filters` |
| Finder.UpdateMarked | nico2finder/finder.py:77-78 | `update` with entries of another option group, told apart by the first letter of the field name, overwrites nothing and appends them |
| Finder.QueryAsBuilt | nico2finder/finder.py:77-78 | assigning the tag entries and then the genre entries after the scalar entries overwrites nothing, and the result is the reference mapping |
| Finder.QueryScalarGet | nico2finder/finder.py:66-76 | each scalar option's key holds exactly the value given for it, and is absent when that option is `None` |
| Finder.NoFiltersEmpty | nico2finder/finder.py:42-78 | with every option `None` the mapping is empty |
| Finder.UserIdOnly | tests/test_finder_searchfilter.py:9-14 | with only `user_id` given, the mapping is exactly `filters[userId][0]` with that value |
| Finder.RangeOnly | tests/test_finder_searchfilter.py:20-147 | with only one range option's bounds given, the mapping holds its `[gte]` key exactly when the lower bound is given and its `[lte]` key exactly when the upper bound is given, and nothing else |
| Finder.TagListExample | tests/test_finder_searchfilter.py:160-176 | three tags produce `filters[tags][0]`, `[1]` and `[2]` with those values, in order |
| Finder.SearchFilter.constructor | nico2finder/finder.py:42-78 | the built mapping is the reference mapping of the given options, and it is a valid filter mapping |
| Finder.SearchFilter.SetAttr | nico2finder/finder.py:80-82 | a `None` value leaves the mapping unchanged; otherwise the value is assigned under `filters` + key; a valid mapping stays valid |
| Finder.SearchFilter.SetAttrMultiple | nico2finder/finder.py:84-90 | the mapping becomes the old one updated with the entries of the scalar at index 0, or of every given element at its own index; a valid mapping stays valid |
| Finder.SearchFilter.GetQuery | nico2finder/finder.py:92-93 | returns the stored mapping and changes nothing |
| Finder.DefaultFieldsKeys | nico2finder/finder.py:99-119 | the default table (the constant `DefaultFields`, the dict literal of the constructor) has as keys the nineteen field names, in order |
| Finder.DefaultFieldsDistinct | nico2finder/finder.py:99-119 | the default table has no repeated key |
| Finder.DefaultEnabled | nico2finder/finder.py:99-119 | a fresh finder enables exactly contentId, title, viewCounter, mylistCounter, startTime and commentCounter, in table order |
| Finder.Overridden | nico2finder/finder.py:144-146 | overriding keeps the table's key sequence and the distinctness of its keys |
| Finder.OverriddenGet | nico2finder/finder.py:144-146 | a known field named in the arguments takes the given value; every other field keeps its value; an unknown key stays absent |
| Finder.OverriddenStep | nico2finder/finder.py:144-146 | one loop iteration assigns a known key and skips an unknown one |
| Finder.OverrideExampleKnown | nico2finder/finder.py:144-146 | `set_response_fields(description=True, bogusField=True)` on the defaults keeps the field names and enables `description` |
| Finder.OverrideExampleUnknown | nico2finder/finder.py:144-146 | the same call does not add `bogusField` |
| Finder.OverrideExampleOthers | nico2finder/finder.py:144-146 | the same call leaves every field except `description` at its default |
| Finder.EnabledFields | nico2finder/finder.py:165 | `[f for f in fields if fields[f]]`, in table order; EnabledFieldsMember and EnabledFieldsAmongKeys state which names it lists |
| Finder.FieldsParam | nico2finder/finder.py:165 | the enabled names joined by commas; FieldsParamRecovers states that it is empty or splits back into them |
| Finder.EnabledFieldsMember | nico2finder/finder.py:165 | a field is listed in the `fields` parameter exactly when it is switched on |
| Finder.EnabledFieldsAmongKeys | nico2finder/finder.py:165 | every listed name is a key of the table |
| Finder.FieldsParamRecovers | nico2finder/finder.py:165 | the `fields` parameter is empty when nothing is enabled, and otherwise splits at commas back into the enabled names in table order |
| Finder.ReservedParams | nico2finder/finder.py:162-169 | the reserved parameters have exactly the keys q, targets, fields, _sort, _context and _limit, in that order and without repeats |
| Finder.ReservedNotFilterKeys | nico2finder/finder.py:162-172 | no reserved parameter name begins with `filters`, so a filter mapping cannot overwrite one |
| Finder.NicoVideoFinder.constructor | nico2finder/finder.py:98-120 | a new finder holds the default table, and its application name is the given one or `python-nico2finder` |
| Finder.NicoVideoFinder.SetResponseFields | nico2finder/finder.py:122-146 | the new table is the overridden table; the field names and the application name are unchanged |
| Finder.NicoVideoFinder.CurrentResponseFields | nico2finder/finder.py:148-151 | returns the table and changes nothing |
| Finder.NicoVideoFinder.FindVideoParams | nico2finder/finder.py:153-172 | the parameters are the six reserved ones, updated with the filter's mapping when one is given; for a valid filter mapping they are the reserved ones followed by the filter entries |
| Finder.SearchExampleQuery | nico2finder/finder.py:67 | `least_views=1000` alone yields only `filters[viewCounter][gte]` with value 1000 |
| Finder.SearchExample | nico2finder/finder.py:153-172 | a search for "初音ミク" with `least_views=1000` on a fresh finder sends the six reserved values and then `filters[viewCounter][gte]` = 1000 |

## Left out

- The HTTP request (finder.py lines 174-189) is left out: it builds the URI with `urllib.parse.urlencode`, sets the request headers and opens the connection. All of that is I/O.
- JSON decoding of the response (lines 189-191) is left out, because it is I/O.
- The endpoint constants `API_DOMAIN` and `API_ENDPOINTS` (lines 7-13) are left out, because they only feed the request URI.
- The request always sends the User-Agent `python-nico2finder` and ignores `app_name` (line 182). This is part of the request and is not modelled.
- `setup.py` is packaging and is not part of this model.
- Finder.NicoVideoFinder.SetResponseFields: the values are modelled as booleans. Python stores any value and selects fields by truthiness.
- Finder.NicoVideoFinder.SetResponseFields: it requires distinct argument names. Python keyword arguments cannot repeat, so this is no extra demand on callers.
- Finder.Value: option values are integers or strings only. A scalar option given a list, and a list nested inside a `tag` or `genre` list, become keys with non-scalar values in Python. The model does not represent those.
- Finder.Multi: the list/tuple test `type(value) in (tuple, list)` is modelled by the constructor `Many`, and every other value by `One`.
- Finder.NicoVideoFinder.FindVideoParams: `targets` is a string and `sort` is a `SortOrder`. Python passes any values through to the URL encoder. The parameter `limit`, an unbounded integer, is kept as given.
- Finder.SearchFilter.SetAttrMultiple: the key template `[<field>][%d]` is modelled by the field name (`tags` or `genre`). Formatting other templates is not modelled.
- Finder.SearchExample: the `fields` parameter of a fresh finder is stated as the comma-join of the six names, not as the literal joined string.
- Finder.SearchFilter.GetQuery: Python returns the stored dict itself, not a copy. A caller that writes through it changes the filter, and can for example set a reserved key such as `q` that the `update` in `find_video` then overwrites. The model returns a value, so such aliasing writes are not modelled.
- Finder.NicoVideoFinder.CurrentResponseFields: Python returns the stored dict itself, so a caller can add keys to the table that bypass the known-field test of `set_response_fields`. The model returns a value, so such aliasing writes are not modelled.

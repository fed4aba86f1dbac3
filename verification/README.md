# feedsweeper: the tag map

feedsweeper is a maintenance tool for a Feedbin account. Its `main` asks the
Feedbin API for the account's taggings. Each tagging records that one feed
belongs to one tag. `main` then groups the taggings by tag name into a map
from each name to the list of feed ids tagged with it. This project models
that grouping step and proves what it produces.

- `feedbin.dfy` (module `Feedbin`) holds the values the step receives:
  - `u64` feed ids.
  - `Tagging(name, feedId)`.
  - The two-armed `CacheRequestResponse<T>`: `Modified(value)` or `NotModified`.
  - `Lookup`, the optional result of a map lookup, as `HashMap::get_mut` returns it.
- `tag_map.dfy` (module `TagMap`) holds the specification and the step itself:
  - The specification: `FeedsFor(ts, name)` lists the feed ids of the taggings
    with that name, in response order. `Names(ts)` is the set of names that
    occur. `TagMapOf(ts)` maps each of those names to its `FeedsFor` list.
  - The step, as the program runs it:
    - `Record` is one pass of the loop body.
    - `GroupTaggings` is the loop over the payload.
    - `BuildTagMap` is the branch on the response.

`GroupTaggings`, and `BuildTagMap` on a `Modified` response, are proved equal
to `TagMapOf` of the payload; on `NotModified`, `BuildTagMap` is proved to
return the empty map. `Record` is proved to do the one-tagging update that
`TagMapOfSnoc` shows `TagMapOf` makes. The lemmas establish the
specification's properties:
- the order of the lists;
- repeated feed ids are kept;
- what one more tagging changes, in the keys and in the lists;
- the total number of stored ids.

`main` stops after building and printing the tag map.

## Model

| member | source | states |
|---|---|---|
| `TagMap.BuildTagMap` | src/main.rs:36-54 | The map starts empty. A `NotModified` response leaves it empty. A `Modified` response yields exactly the tag map of its payload, and the stored lists hold as many ids as the payload has taggings. |
| `TagMap.GroupTaggings` | src/main.rs:43-52 | After the loop, the keys are exactly the names in the taggings. Each name's list is that name's feed ids in response order and is never empty. The lists hold as many ids in total as there are taggings. The loop invariant is that the map is the tag map of the prefix processed so far. |
| `TagMap.Record` | src/main.rs:44-51 | One tagging adds its name to the keys. A known name gets the feed id pushed onto its list. An unknown name gets a one-element list. Every other entry is unchanged. The re-lookup behind `expect` cannot miss: its failure branch is proved unreachable. |
| `TagMap.TagMapOfSnoc` | src/main.rs:44-50 | In the specification, one more tagging appends its feed id to an existing name's list, or creates a one-element list for a new name. The rest of the map stays equal. |
| `TagMap.FeedsForAppend` | src/main.rs:43-48 | Grouping commutes with concatenation of the response. Each list keeps response order. |
| `TagMap.FeedsForSnoc` | src/main.rs:48 | One more tagging extends its own name's list by its feed id at the end. It leaves every other name's list alone. |
| `TagMap.FeedsForCount` | src/main.rs:48 | A feed id appears in a name's list exactly as many times as that (name, feed id) tagging appears in the response. Nothing is deduplicated. |
| `TagMap.FeedsForMember` | src/main.rs:43-50 | A feed id is listed under a name if and only if the response holds that tagging. |
| `TagMap.FeedsForNonEmpty` | src/main.rs:49-50 | A name's list is non-empty if and only if some tagging carries the name. So no key ever holds an empty list. |
| `TagMap.TagMapOfTotal` | src/main.rs:43-51 | The list lengths of the tag map add up to the number of taggings. Each tagging pushes exactly one id. |

## Left out

- Command-line parsing (`clap`, src/main.rs:13-24, 28): library-driven argument handling with no logic of its own.
- The lazily parsed Feedbin base URL (src/main.rs:8-11): a constant handed to a foreign URL parser.
- The HTTP client, the API client and the `get_taggings(...).await.unwrap()` call (src/main.rs:30-39): network I/O on an async runtime. The response is a parameter of `BuildTagMap`. A failed request, which panics at `unwrap`, is not modelled.
- The cache metadata of a `Modified` payload (entity tag, last-modified time) is not part of this model. The step reads only the payload's `value`.
- The diagnostic `eprintln!` lines and the final printing loop (src/main.rs:31-34, 40, 56-62): output only. The loop walks the map in the hash map's unspecified order.
- `u64` feed ids are only stored and compared, never computed with, so no wrap-around arises.

# GiGot, modelled and proved

GiGot is a git-backed server for Formidable clients. This project models the
parts of it that have to be right under concurrency and failure, and proves
what they promise. `dafny verify dfyconfig.toml` checks everything.

**Records** (`Json`, `Reader`, `RoundTrip`, `Grammar`, `Schema`,
`RecordMeaning`, `Merge`, `MergeLaws`, `MergeMeaning`, `LastWriter`,
`Convergence`, `Query`). A record is a meta map and a data map of JSON values.
The reader takes exactly the texts of the JSON grammar (`Grammar`), and the
canonical printer is uniquely readable. The three-way merge
reports exact, symmetric conflicts; replaying a change against its own result
stores the same bytes. Any number of clients of one base record merge without
conflict exactly if they keep the immutable keys and are pairwise compatible in
data and facets; their data, facets, tags, flag and last instant then do not
depend on the order. Default meta keys and the stored `updated` block can, and
it is proved exactly when (`LastWriter`). The in-place sort of queries is proved
for a comparison that is not transitive.

**The write protocol** (`Dag`, `Decide`, `Index`, `Cas`, `Branch`,
`WriteMeaning`, `Repo`, `Changes`). Any number of writers read a ref, decide, and swap it if it still
is what they read, five times at most. `Cas` is that protocol as a state
machine over all interleavings, with pushes from outside; `Branch` puts
`WriteFile` and `Commit` into it; `Repo` has the two loops themselves, on a
repository object that others change between any two of their steps, and shows
each call to be one writer of the machine. A commit is modelled by its
content, since its id is a hash of it: a client commit is not always new.

**The audit chain** (`Audit`, `AuditLog`) is a third writer of the same
machine, on a ref that need not exist yet.

**Key rotation** (`Disk`, `Rotate`, `RotateMeaning`). Every file operation is a step at which
the process may stop or the operation fail, a write with any part written. The
record of all states is a ghost field of the file store.

**The scaffold** (`Scaffold`, `ScaffoldMeaning`) runs on the same repository
object as the write protocol.

Where the source is a loop over shared or local state, the model is a method
with that loop, proved against a function; the lemmas are about the functions
and about whole runs. The modules whose names end in `Meaning`, and `Grammar`,
say what those functions yield without naming them: in terms of the records,
trees, files and texts that go in and come out.

## Findings

- Data conflicts. `internal/formidable/errors.go:5-8` and `15-17`, and sections
  10.3 and 10.6 of `docs/design/structured-sync-api.md`, say that data fields
  never conflict because the last writer wins. `internal/formidable/merge.go:43-53`
  reports a conflict; the model follows the code.
- Deleted meta keys. A default meta key that both sides removed comes back as
  null (`MergeLaws.DefaultKeysNeverGo`). Tags and the flag ignore the base, so
  removing a tag or clearing the flag on one side alone has no effect
  (`MergeLaws.MergedTagsOf`, `MergeLaws.MergedFlag`).
- Order of clients. A default meta key can depend on the order in which clients
  are merged, without any conflict: a later client that lacks the key shields
  the value that is there from an earlier one, and among equal instants the
  client merged last wins (`Convergence.OwnerDependsOnOrder`). The exact
  conditions are `Convergence.DefaultKeyEndings`, `Convergence.DefaultKeyAmongLatest`
  and `Convergence.UpdatedEndings`.
- Repeated writes. A commit repeated byte for byte is the same object. If the
  head contains it and has since reverted it, the call reports success and
  changes nothing (`Decide.RepeatedWriteIsLost`); `Decide.CleanMergeLands` says
  exactly when a client's change does land. The same write under another
  message lands (`Branch.RelabelledWriteLands`).
- Empty plaintexts. `box.Open` returns a nil slice for an empty plaintext, so
  `Rotate` passes such a store over and leaves it under the old key
  (`Rotate.MovedExactly`, with a case in `Rotate.EmptyIsPassedOver`). The
  stores of this program are never empty texts.
- Repeated stores. A store listed twice is rewrapped twice, and the second
  backup replaces the first: its old form is gone (`Rotate.BackupExactly`,
  `Rotate.RepeatedLosesOldForm`), though its content is not.
- Bars in author names. `SeedAuditFromHistory` splits `git log` lines at `|`,
  which a git author name may hold. The backfilled event is then wrong in its
  author, time and notes (`Audit.BarredAuthor`), and right exactly if neither
  author nor date holds a bar (`Audit.BackfillExact`).
- Mixed sort values. Numbers are compared as numbers and anything else as
  text, so the order is not transitive (`Query.BeforeNotTransitive`). Values
  10, 1a, 9 come out in this order (`Query.MixedValuesStayUnsorted`). Records
  come out sorted from every order they can come in exactly if the comparator
  makes no circle among them (`Query.SortsExactly`); neighbours are in order
  always.

## Model

| member | source | states |
|---|---|---|
| RoundTrip.NumberStops | internal/formidable/schema.go:109-114 | number texts are not prefix-free, yet before anything the printer can put after a number the reader takes exactly that text |
| RoundTrip.CharsRoundTrip | internal/formidable/schema.go:87-91 | a string written with every escape of `json.Marshal` reads back as itself, whatever follows its closing quote |
| RoundTrip.ValueRoundTrip | internal/formidable/schema.go:72-117 | for every value and every legal continuation the reader takes back exactly the value and leaves exactly the continuation |
| RoundTrip.CanonInjective | internal/formidable/schema.go:49-52 | two values print alike if and only if they are equal: keys are sorted at every depth and nothing is lost |
| RoundTrip.DeepEqualExact | internal/formidable/meta.go:313-324 | comparison through marshalled text is equality after each number is replaced by its text as a string; hence an equivalence, on all trees |
| Grammar.NumberMeaning | internal/formidable/schema.go:36-37 | a text counts as a number if and only if it is one by the grammar: sign, whole part without leading zeros, fraction, exponent |
| Grammar.CharMeaning | internal/formidable/schema.go:36-40 | one character of a string is read from exactly the spellings the grammar has for it, escapes with capital hex digits and the escaped slash included |
| Grammar.WrittenRead | internal/formidable/schema.go:36-40 | every writing of a syntax tree, with any white space and any spelling of each character, is read to what the tree means, and what follows is left; of repeated members the last counts |
| Grammar.ValueTaken | internal/formidable/schema.go:36-40 | nothing else is read: whatever the reader takes is the writing of a proper tree that means the value it gives |
| Grammar.ReaderExact | internal/formidable/schema.go:36-40 | both directions together, as a statement about one text, value and rest |
| Grammar.CanonWritten | internal/formidable/schema.go:72-117 | what is printed for a value is the writing of a tree without white space, with strictly increasing keys and, for each character, the one spelling of `json.Marshal`; the tree means the value, a number without text standing for zero |
| Schema.ParseRecord | internal/formidable/schema.go:22-47 | blank input gives the empty record, a missing or null section an empty map, anything that is no object of objects an error |
| RecordMeaning.ParseMeaning | internal/formidable/schema.go:22-47 | bytes parse to a record with given meta and data if and only if they are blank or begin with null and both are empty, or begin with a proper JSON object whose two sections, absent or null for empty, are these |
| Schema.WriteCanonical | internal/formidable/schema.go:72-117 | appends exactly the canonical text after what the buffer held, and fails exactly if some number in the value has a text that is no number |
| Schema.WriteMembers | internal/formidable/schema.go:76-97 | the object case: one pass over the sorted keys, appending to the shared buffer |
| Schema.WriteElements | internal/formidable/schema.go:98-108 | the array case, positions kept |
| Schema.CanonicalJSON | internal/formidable/schema.go:53-63 | the text of the whole record, or failure exactly if meta or data is not printable |
| RecordMeaning.PrintableMeaning | internal/formidable/schema.go:109-114 | a value can be printed if and only if every number that stands anywhere in it has the text of a number, or none |
| RecordMeaning.CanonicalMeaning | internal/formidable/schema.go:53-63 | printing fails exactly on a bad number; otherwise the bytes are the compact writing of an object with the two sections |
| Schema.RecordRoundTrip | internal/formidable/schema.go:49-63 | parsing the canonical text of a record gives back that record |
| Schema.CanonicalTextInjective | internal/formidable/schema.go:49-52 | two records have the same bytes if and only if they are the same record |
| Schema.Canonicalise | internal/formidable/meta.go:326-345 | the loops of the comparison form compute the value with each number replaced by its text as a string |
| Schema.CompareDeep | internal/formidable/meta.go:317-324 | true if and only if the two normal forms are equal |
| Merge.MergeMaps | internal/formidable/merge.go:21-55 | one pass over the union of keys fills the surviving fields and lists the clashing ones in key order |
| Merge.MergedAt | internal/formidable/merge.go:30-54 | the merged map holds, at every key, the outcome of the field rule; a clashing key is not in it |
| Merge.MergeTags | internal/formidable/meta.go:234-266 | the loops over both arrays collect the normalised tags of both sides and print them sorted |
| Merge.Collect | internal/formidable/meta.go:236-252 | adds the trimmed, lowered, non-empty strings of an array to the set; anything else adds nothing |
| Merge.MergeFacets | internal/formidable/meta.go:100-139 | facets are merged per facet key by the data rule; clashes are named `facets.<key>` under scope meta |
| Merge.CheckImmutable | internal/formidable/meta.go:25-46 | one entry per immutable key on which a present side differs from a present base, in the fixed order |
| Merge.MergeMetaKey | internal/formidable/meta.go:51-88 | each arm of the switch, facet conflicts included |
| Merge.MergeMeta | internal/formidable/meta.go:19-91 | the merged map holds every key of the union with the value of its rule, and the conflicts are those of the immutable keys followed by those of the facets; what each rule yields is said in terms of the records alone by the lemmas of `MergeMeaning` |
| Merge.Merge | internal/formidable/merge.go:18-72 | meta and data conflicts are reported together and suppress the result; otherwise the canonical bytes of the merged record, or the printer's error |
| MergeLaws.SameExact | internal/formidable/merge.go:74-84 | `sameField` is equality of normal forms, absence included |
| MergeMeaning.SameCases | internal/formidable/meta.go:313-345 | what counts as the same value, case by case: numbers and strings by their text, arrays place by place, objects key by key, anything else only itself |
| MergeLaws.ClashExact | internal/formidable/merge.go:27-53 | a field is listed precisely if both sides changed it and their results differ |
| MergeLaws.ConflictsExact | internal/formidable/merge.go:19-64 | an entry of the whole conflict list is an immutable key, a facet or a data field that collided, and every collision is listed |
| MergeMeaning.FieldMeaning | internal/formidable/merge.go:27-53 | field by field, in terms of the three values: a side that left it alone gives way, equal changes meet, anything else collides |
| MergeMeaning.ConflictOrder | internal/formidable/merge.go:18-64 | immutable keys come first, then facets, then data, each group in key order and without repetition |
| MergeMeaning.MergeReports | internal/formidable/merge.go:57-71 | a conflict reports the path and merges nothing; otherwise the returned bytes parse to the record with the merged meta and data |
| MergeMeaning.ImmutableClash | internal/formidable/meta.go:25-46 | an immutable key collides if and only if the base has it and a side has it with another value |
| MergeLaws.ClashesSwap | internal/formidable/merge.go:22-55 | swapping the sides leaves the list of clashing fields as it is, order included |
| MergeLaws.ConflictsSwap | internal/formidable/merge.go:18-64 | the whole conflict list is identical when theirs and yours are swapped |
| MergeLaws.SurvivorExact | internal/formidable/merge.go:30-52 | a field that did not clash carries every change made to it up to `sameField`, and is the base's own value if nobody changed it |
| MergeLaws.ReplayMaps | internal/formidable/merge.go:21-55 | merging the same change into its own result never clashes and gives exactly that result (data and facets) |
| MergeLaws.ReplayRecord | internal/formidable/merge.go:18-72 | replay is exact on whole records: data, facets, tags, flagged, updated, immutable and default keys |
| MergeLaws.ReplayBytes | internal/formidable/merge.go:57-71 | on stored bytes: a merge of parsed records never fails to print, and replaying the change against what was stored stores the same bytes again |
| MergeLaws.FacetsOfMerged | internal/formidable/meta.go:57-67 | reading the facets of the merged meta gives the merged facets, also when the key is dropped because none remain |
| MergeMeaning.FacetsMeaning | internal/formidable/meta.go:93-139 | facets merge and collide facet by facet like data fields, named `facets.<key>` under meta; when none remain the key is dropped |
| MergeLaws.ImmutablesKept | internal/formidable/meta.go:70-83 | merging never moves a present base's `created`, `id` or `template`, so later merges see the same immutability conflicts as against the base |
| MergeMeaning.ImmutableMeaning | internal/formidable/meta.go:70-83 | an immutable key has the value of the base, or theirs where the base has none, or else yours |
| MergeLaws.DefaultKeysNeverGo | internal/formidable/meta.go:280-296 | a default meta key follows the winner; one that both sides removed comes back as null, so it is absent exactly if nobody ever had it |
| MergeLaws.MergedTagSet | internal/formidable/meta.go:234-266 | the merged tag list stands for exactly the union of the normalised tags of both sides |
| MergeLaws.TagAlgebra | internal/formidable/meta.go:234-266 | tag merging is commutative, associative and idempotent |
| MergeLaws.TagsSorted | internal/formidable/meta.go:256-265 | the merged list is strictly sorted, so without repetition, and each entry is the normal form of a tag that went in |
| MergeLaws.MergedTagsOf | internal/formidable/meta.go:55-56 | the merged record has exactly the tags of both sides; a tag of the base is gone if and only if neither side lists it |
| MergeMeaning.TagsMeaning | internal/formidable/meta.go:234-266 | the merged tags are strictly sorted and are exactly the texts that a side lists, without outer space and in lower case, if anything is left of them |
| MergeLaws.MergedFlag | internal/formidable/meta.go:268-273 | the merged record is flagged if and only if a side is, whatever the base says |
| MergeMeaning.FlagMeaning | internal/formidable/meta.go:268-273 | the merged record is flagged exactly if a side has the very value true |
| MergeLaws.UpdatedFollowsWinner | internal/formidable/meta.go:165-232 | `updated` comes from the side `UpdatedWinner` names whenever one side parses, and is never earlier than a side that parses |
| MergeMeaning.LaterSideWins | internal/formidable/meta.go:165-232 | a side says when it was changed by a block with a time text under `at`, or by a time text alone: the side that says the later instant, yours on a tie, gives `updated` and every default key both hold; a side that says nothing loses to one that does, and if neither does the default keys are yours and `updated` is too unless it is null or missing there |
| MergeLaws.MergedInstant | internal/formidable/meta.go:212-232 | the merged record was last changed at the later of the instants that parse, and at none if none does |
| MergeLaws.UpdatedNeverGoesBack | internal/formidable/meta.go:212-232 | across any sequence of merges into a head whose `updated` parses, it keeps parsing and never goes back |
| Convergence.AbsorbStep | internal/formidable/merge.go:21-55 | one more client merges cleanly into the growing head exactly if it agrees with every client before it, and then its edits are added |
| Convergence.AbsorbedOverrides | internal/formidable/merge.go:21-55 | as long as nothing clashed, the head is the base overridden by all the edits and by nothing else |
| Convergence.NeverClashesExact | internal/formidable/merge.go:21-55 | for any number of clients, no merge on the way clashes if and only if the clients are pairwise compatible |
| Convergence.AnyOrder | internal/formidable/merge.go:21-55 | the same clients in another order still never clash and end in the same fields up to `sameField` |
| Convergence.ClientsConverge | internal/formidable/merge.go:18-72 | whole records: every merge into the growing head succeeds if and only if the clients keep the immutable keys and are pairwise compatible in data and in facets |
| Convergence.OrderDoesNotMatter | internal/formidable/meta.go:93-139 | data and facets of the head are the base overridden by all the edits, in every order |
| Convergence.HeadTagsAndFlag | internal/formidable/meta.go:234-273 | after any number of clients a tag is in the head exactly if the base or some client has it, and so with the flag |
| Convergence.HeadInstant | internal/formidable/meta.go:212-232 | after any number of clients the head carries the latest instant that the base or a client carries |
| Convergence.TagsFlagAndInstantInAnyOrder | internal/formidable/meta.go:212-273 | in every order of the clients the head ends with the same tags, the same flag and the same last instant |
| Convergence.HeadDefault | internal/formidable/meta.go:84-86 | after any number of clients a default key has the value of the last client that held it and was not earlier than everyone before, or was the first to hold it |
| Convergence.DefaultKeyEndings | internal/formidable/meta.go:280-296 | which values of a default key the head can end with over all orders of the clients, holders and others; so the order does not matter if and only if one value can be left |
| Convergence.DefaultKeyAmongLatest | internal/formidable/meta.go:280-296 | where base and all clients hold the key, the order does not matter if and only if all the latest clients hold the same value |
| Convergence.HeadUpdated | internal/formidable/meta.go:212-232 | the stored `updated` block goes to the latest writer, and among equals to the one merged last |
| Convergence.UpdatedEndings | internal/formidable/meta.go:212-232 | the stored `updated` block is the same in every order if and only if one block can be left |
| Convergence.OwnerDependsOnOrder | internal/formidable/meta.go:280-296 | two clients without any conflict whose order decides the owner: a client that lacks the key shields what is there from an earlier one |
| LastWriter.EndingsExactly | internal/formidable/meta.go:280-296 | over all orders of writers exactly these values can be left: the latest ones that bring one, or, where a later writer brings none, any that the slot lets in, and the first value if nothing displaces it |
| LastWriter.SameExactly | internal/formidable/meta.go:280-296 | the outcome is the same in every order if and only if no two different values can be left |
| LastWriter.SameAmongLatest | internal/formidable/meta.go:280-296 | where every writer brings a value, if and only if the latest ones bring the same |
| Query.ParseCondition | internal/formidable/query.go:22-36 | the condition has the operator that comes first in the order of the source among those whose first place has a key in front of it that is not blank; key and value are what stands around that place, without outer space; an error exactly if there is no such operator |
| Query.ConditionRoundTrip | internal/formidable/query.go:19-36 | key, operator and value without operator characters and outer space are recovered from their concatenation, for all six operators, although some are parts of others |
| Query.BeforeAsymmetric | internal/formidable/query.go:102-117 | the mixed numeric and string comparison is asymmetric for every pair of values, NaN included |
| Query.BeforeNotTransitive | internal/formidable/query.go:102-117 | it is not transitive: 10 before 1a before 9 before 10 |
| Query.InsertAt | internal/formidable/query.go:120-124 | the inner loop moves one record down by neighbour swaps and touches nothing above it |
| Query.SortRecords | internal/formidable/query.go:101-125 | the in-place sort leaves the array holding insertion sort's result |
| Query.SortPermutes | internal/formidable/query.go:120-124 | sorting neither loses nor repeats a record |
| Query.SortNeighbours | internal/formidable/query.go:120-124 | no two neighbours are out of order, for any comparison outcome whatsoever |
| Query.SortStable | internal/formidable/query.go:120-124 | records that tie stay in their order |
| Query.UniformSorted | internal/formidable/query.go:102-124 | in particular the result is fully sorted if all sort values are numbers other than NaN, or none is numeric |
| Query.UniformNoCircle | internal/formidable/query.go:102-117 | numbers among themselves, and texts among themselves, make no circle |
| Query.SortsExactly | internal/formidable/query.go:101-125 | given records come out fully sorted from every order they can come in, if and only if the comparator makes no circle among them |
| Query.CircleStays | internal/formidable/query.go:120-124 | three records in a circle stay in the order they came in |
| Query.SortKeepsOrder | internal/formidable/query.go:120-124 | of two records already placed, no later insertion changes the order |
| Query.MixedValuesStayUnsorted | internal/formidable/query.go:101-125 | records with the values 10, 1a and 9 come out in this order, although 9 is before 10 |
| Query.FilterRecords | internal/formidable/query.go:78-99 | filter, then sort (a leading minus means descending), then cut; without a limit a record is returned exactly if it was there and its value stands in the relation of the operator to the value asked for |
| Query.MatchesMeets | internal/formidable/query.go:44-72 | a record meets a condition if and only if it has the key and the text its value shows equals the one asked for, or differs, or both parse and the first is the greater, the less or, other than NaN, the same |
| Query.QueryMeaning | internal/formidable/query.go:78-99 | without a limit a query returns exactly the records that meet the condition, each as often as it was there |
| Query.NumericQueryMeaning | internal/formidable/query.go:56-71 | for the four orderings on finite numbers a record is returned exactly if its number stands in that relation to the one asked for; NaN and texts that do not parse never match |
| Query.UnsortedQueryKeepsOrder | internal/formidable/query.go:78-85 | without a sort key, of two records that meet the condition one stands in front of the other exactly as before |
| Query.SortedQueryMeaning | internal/formidable/query.go:86-117 | a sort key sorts upwards and behind a minus downwards, numbers by value if all are numbers and texts by their characters if none is |
| Query.QueryGuarantees | internal/formidable/query.go:74-99 | kept and cut-off records are together a permutation of the matching ones, the count is the limit, no kept neighbours are inverted, and where the comparator makes no circle the kept ones are sorted and nothing cut off belongs before anything kept |
| Dag.AncestorTransitive | internal/git/write.go:336-341 | ancestry composes |
| WriteMeaning.AncestorIsWalk | internal/git/write.go:336-341 | a commit is an ancestor if and only if some walk over parents leads back to it, the commit itself included |
| Dag.Acyclic | internal/git/write.go:336-341 | two commits that are each other's ancestors are the same commit |
| Dag.MergeBaseExact | internal/git/write.go:343-353 | over arbitrary graphs: if the client's parent is an ancestor of the head there is exactly one merge base, the parent, or the client's own commit where that is already in the head's history |
| Dag.TwoParents | internal/git/write.go:291-304 | a commit gets the given parents, a repeated one only once |
| Decide.CleanMergeKeepsHead | internal/git/commit.go:157-179 | a merge leaves every path the client did not change as the head has it |
| Decide.CleanMergeLands | internal/git/commit.go:157-179 | the client's changes land on every path the head left alone, if and only if the client's commit is new to the head's history or the head reverted none of them |
| Decide.RepeatedWriteIsLost | internal/git/commit.go:121-166 | an identical repeated commit (same content hash) over a head that reverted it merges cleanly and changes nothing |
| Decide.ClashExact | internal/git/commit.go:157-166 | a conflict lists exactly the paths both sides changed, differently, and that no content merge resolves; then the client's commit was new |
| WriteMeaning.PathMeaning | internal/git/write.go:343-370 | path by path, in terms of the three trees: a path collides exactly if both sides changed it differently and it is gone on one side or its contents do not merge; otherwise a side that left it alone gives way and contents changed on both sides are merged |
| Decide.StaleParentConflicts | internal/git/commit.go:321-335 | every client change is echoed once, in order, with only yours filled in, and that empty for a delete |
| Decide.CollectMergeConflicts | internal/git/commit.go:341-356 | for each path the blobs at parent, head and client commit; a missing blob is empty |
| WriteMeaning.DecisionMeaning | internal/git/commit.go:131-192 | what an attempt does on any head: its own parent is replaced by the client's commit, a head that does not hold the parent is answered with all changes echoed, a head that holds the client's commit keeps its tree, any other is merged path by path with both as parents or answered with the colliding paths and their base, theirs and yours |
| WriteMeaning.WriteDecision | internal/git/write.go:145-217 | `WriteFile` decides on every head as `Commit` does with the one put |
| Index.LastWins | internal/git/commit.go:202-212 | applied one by one, the last change to a path decides it and every other path is as in the parent |
| Index.TouchedIsNamed | internal/git/commit.go:234-243 | only a path named by some change can differ from the parent |
| Index.HashPutObjects | internal/git/commit.go:273-316 | each put index is mapped to the hash of its own content, and no other index is mapped, for every mix of puts and deletes |
| Index.UpdateIndex | internal/git/commit.go:245-257 | the records are applied in order; one refused path fails the batch |
| Index.BatchIsSequence | internal/git/commit.go:207-212 | the batched records build the same tree as applying the changes one by one |
| Index.TreeWithChanges | internal/git/commit.go:213-266 | the batch gives the sequential tree, or fails exactly if some path is refused |
| Index.TreeWithFile | internal/git/write.go:245-278 | the parent's tree with one path set, or a refusal of that path |
| Cas.NextKeepsInv | internal/git/write.go:145-217 | every step of any writer or bystander keeps the bookkeeping of all calls right |
| Cas.RunKeepsInv | internal/git/write.go:145-217 | so it holds after every interleaving of any number of calls |
| Cas.OneMovePerCall | internal/git/commit.go:131-195 | a call moves the ref at most once, and exactly if it returns success, to the version it returns; an error moves it not at all |
| Cas.MovesFollowPlans | internal/git/write.go:147-203 | every swap replaces the very ref its decision was made for, within five attempts |
| Cas.GivingUpTakesFiveMoves | internal/git/write.go:145-218 | a call gives up only after losing five races in disjoint read-to-swap windows, so only if others moved the ref at least five times during it |
| Cas.RunExtends | internal/git/write.go:326-334 | moves are never undone and a finished call stays as it ended |
| Cas.OthersKeep | internal/git/write.go:140-144 | steps that do not concern a call leave its state alone, so the interference allowed between two steps is what others can do |
| Cas.MovesAttach | internal/git/commit.go:138-180 | each move goes to a commit with the old head among its parents |
| Cas.HeadsAreAncestors | internal/git/commit.go:138-180 | every earlier head is an ancestor of every later one |
| Cas.SuccessIsNeverLost | internal/git/commit.go:131-195 | a version returned as success at some point is an ancestor of the head at every later point |
| Branch.BranchMovesAttach | internal/git/commit.go:138-192 | over every interleaving of `WriteFile` and `Commit` calls each move of the branch has the old head as a parent |
| Branch.ReturnedVersionsStay | internal/git/write.go:152-214 | every version these calls ever returned stays an ancestor of the head |
| Branch.SparedPathsStay | internal/git/commit.go:131-195 | over every interleaving, a path that all the calls between two heads left alone is the same in both |
| Branch.LandedChangesStay | internal/git/commit.go:157-192 | over every interleaving, a new change to a path that the head of the moment had left alone is in the branch until a later call touches the path |
| Branch.ParentStaysAncestor | internal/git/write.go:165-171 | a parent that ever was the branch head is an ancestor of every head read later |
| Branch.NeverStale | internal/git/commit.go:150-155 | where only these calls move the branch, a `Commit` whose parent ever was its head is never answered as stale: its refusal is a real merge conflict |
| Branch.NeverStaleWrite | internal/git/write.go:165-171 | the same for `WriteFile` |
| Branch.RefusalNamesOwnPaths | internal/git/commit.go:150-166 | a refused `Commit` lists only paths of its own change set, against the head it read |
| Branch.OnePut | internal/git/write.go:242-278 | both calls build the same tree from one put |
| Branch.WriteRefinesCommit | internal/git/write.go:145-218 | `WriteFile` against `Commit` with one put, client commits and merges under different messages: on every head that holds both client commits or neither, both reach the same verdict, and swap in the same tree on the same first parent, or give the same conflict with the same base, theirs and yours |
| Branch.MessagesDoNotMatter | internal/git/write.go:101-103 | client commits that differ only in their message get the same verdict on every head that holds both or neither |
| Branch.HeldCommit | internal/git/commit.go:157-179 | a client commit that the head holds already merges cleanly and keeps the head's tree |
| Branch.OneHeld | internal/git/commit.go:157-179 | a head that holds exactly one of the two tells them apart: they get the same verdict if and only if merging the other one changes nothing |
| Branch.RelabelledWriteLands | internal/git/commit.go:120-179 | over a head that reverted it, the same write under another message lands while the exact repetition is lost |
| Repo.Repository.PrepareWrite | internal/git/write.go:89-138 | passes exactly the calls that meet every check, a version given by id being in the store, with the error of the first check that fails; then the client commit is built on that very version, or on the head where the branch is named |
| Repo.Repository.Resolve | internal/git/write.go:221-240 | no version gives none, the branch its head, and an id itself exactly if the store has it |
| Repo.Repository.WriteFile | internal/git/write.go:85-219 | accepted exactly if every check passes, a version given by id being in the store, and then built on that very version, or on the head; the loop, with others acting before each read and each swap, ends as its writer in the protocol ends; undisturbed it does exactly what the decision on the head found says, a conflict with its contents included; a merge has the head and the client commit as parents, once each; the returned changes lead from the head, or the parent, to the new version |
| Repo.Repository.WriteLoop | internal/git/write.go:145-218 | the retry loop: it ends as its writer ends, and undisturbed it takes the decision on the head found |
| Repo.Repository.PrepareCommit | internal/git/commit.go:78-129 | passes exactly the calls that meet every check, a version given by id being in the store, with the error of the first check that fails; then the client commit is built from all the changes on that very version, or on the head where the branch is named |
| Repo.Repository.CommitChanges | internal/git/commit.go:74-195 | the same for `Commit`: accepted exactly if every check passes, built on the very version given, and undisturbed exactly the decision on the head found |
| Repo.Repository.CommitLoop | internal/git/commit.go:131-195 | the retry loop: it ends as its writer ends, and undisturbed it takes the decision on the head found |
| Repo.Repository.TrySwap | internal/git/write.go:203-216 | after interference the swap succeeds or the attempt is counted; the fifth loss ends the call |
| Repo.Repository.UpdateRef | internal/git/write.go:326-334 | the ref moves if and only if it still is what was read |
| Repo.Repository.ChangesSince | internal/git/changes.go:40-72 | no version, an unknown one (exactly if the store does not have it), an empty repository and one that is no ancestor of the head each have their own error; otherwise a list that leads from exactly the given version to the head |
| Changes.DiffExact | internal/git/refs.go:78-87 | an entry is in the difference of two maps if and only if its key is held differently, with both values as they are |
| Changes.DiffIncreases | internal/git/refs.go:74-87 | the keys strictly increase |
| Changes.ReplayDiff | internal/git/refs.go:62-90 | replaying the difference of two maps on the first yields the second, for all maps |
| Changes.DiffEmpty | internal/git/refs.go:62-90 | it is empty exactly if the maps are equal |
| Changes.ChangeListMeaning | internal/git/changes.go:75-96 | a path is listed exactly if the trees differ on it: added or modified with its new blob, deleted with its old one |
| Changes.ChangeListOrdered | internal/git/changes.go:75-96 | paths strictly increase, so each is listed once |
| Changes.LedgerFollows | internal/git/changes.go:75-96 | a client that applies the change list to its tree at the old version has the tree at the new one; no entries exactly if the trees are equal |
| Changes.LedgerComposes | internal/git/changes.go:75-96 | consecutive change lists compose |
| Changes.ParseDiffTreeZ | internal/git/changes.go:106-144 | the index loop computes the parse of the field list, with every error at its place |
| Changes.ParserRecovers | internal/git/changes.go:98-144 | every well-formed NUL-separated list of A, M, T and D records is recovered exactly |
| Changes.RecordMeaning | internal/git/changes.go:127-141 | one record, by the letter of its status: A with the new blob, D with the old one, M and T with the new one |
| Changes.BadHeaderRefused | internal/git/changes.go:110-141 | whatever well-formed records come before it, a field that is no header, a short header, a missing path and an unknown status each give their own error |
| Changes.DiffTreeChanges | internal/git/changes.go:75-96 | rendering the difference of two trees as raw records and parsing it gives the change list with blob ids: the new one, or the old one for a deletion |
| Changes.DiffRefSnapshots | internal/git/refs.go:62-90 | the loops over the sorted union of ref names list exactly the differences, tagged created, updated or deleted |
| Changes.RefChangeMeaning | internal/git/refs.go:62-90 | the list holds exactly one entry for each ref that differs, with its two ids, empty where there is none, and how it moved |
| Changes.RefChangesExact | internal/git/refs.go:59-90 | replaying the list on before yields after, each listed ref really differs, names strictly increase, and the list is empty exactly if the snapshots are equal |
| Audit.ChainIsHistory | internal/git/audit.go:61-64 | in a linear history the walk over parents meets exactly the ancestors, starts at the one root and ends at the head |
| Audit.AppendsStack | internal/git/audit.go:102-124 | every swap of an append puts a commit with just the head it read as parent, or a root while the ref does not exist |
| Audit.AuditChain | internal/git/audit.go:102-152 | over every interleaving of appends, racing first writes included, the ref heads one chain: the old chain followed by one commit per success, in swap order |
| Audit.EventOnce | internal/git/audit.go:103-123 | a successful append is in the chain exactly once with its own event, a failed one not at all |
| Audit.ChainDistinct | internal/git/audit.go:61-64 | no commit is met twice on the walk over parents |
| Audit.SuccessOnceInChain | internal/git/audit.go:102-124 | over every interleaving, the walk from the audit ref meets the commit of each successful append exactly once, behind everything that was there before |
| Audit.LinePieces | internal/git/audit.go:215-222 | a printed log line splits into four fields, the first of them the id; author and subject are the printed ones if and only if neither author nor date holds a bar |
| Audit.LineGivesEvent | internal/git/audit.go:211-238 | every listed commit gives one event with its own id |
| Audit.BackfillExact | internal/git/audit.go:215-238 | the event has the listed commit's own time, or the clock's where the date does not parse, its author, id and subject, if and only if neither author nor date holds a bar |
| Audit.LineCounts | internal/git/audit.go:211-222 | a line of the log gives an event if and only if it has at least three bars |
| Audit.BarredAuthor | internal/git/audit.go:215-238 | a commit whose author is A, a bar and B is recorded as one by A, at the time of the seeding, with the date in front of the subject |
| Audit.LogGivesEvents | internal/git/audit.go:196-238 | the whole log gives one event per listed commit, in the order listed, each with its commit's id and right in all fields exactly where no bar shifts them |
| AuditLog.AuditRefStore.AppendAudit | internal/git/audit.go:65-124 | an event without a type is refused; otherwise the call ends as its writer in the protocol ends, and undisturbed it puts one entry on the head it found; the entry holds the event itself, with the clock's time only if it had none |
| AuditLog.AuditRefStore.UpdateRefAny | internal/git/audit.go:143-152 | the ref moves if and only if it is what was expected; expecting nothing means it must not exist |
| AuditLog.AuditRefStore.SeedAuditFromHistory | internal/git/audit.go:175-245 | with entries already there nothing is written, so seeding again adds nothing; otherwise the counted events are recorded by calls of their own at increasing places, each under its own label; undisturbed the head is exactly the chain of these entries, and if the log lists given commits, there is one entry for each of them in that order |
| AuditLog.AuditRefStore.AppendLines | internal/git/audit.go:210-244 | the loop stops at the first failed append and counts the successful ones |
| AuditLog.RecordedSnoc | internal/git/audit.go:239-242 | an append that starts after others have succeeded gets a later place in the chain than all of them |
| AuditLog.SeededChain | internal/git/audit.go:210-244 | the chain that seeding leaves is one entry per event, in order, each holding its own event |
| AuditLog.SeededHolds | internal/git/audit.go:224-242 | each entry of the seeded chain holds its own event, at the event's own time unless that is zero |
| AuditLog.SeededFromLog | internal/git/audit.go:196-244 | seeded from a printed log the chain has exactly one entry for each listed commit, in the order listed |
| Disk.Store.WriteFile | internal/crypto/rotate.go:130-130 | a write may stop or fail with any part of the file written; no other file is touched in any state on the way |
| Disk.Store.CopyFile | internal/crypto/rotate.go:125-131 | on success the copy holds what the source held |
| Rotate.ReadKeyFile | internal/crypto/keystore.go:65-77 | trailing line ends and spaces do not count; what is left must decode |
| Rotate.WrittenKey | internal/crypto/keystore.go:79-81 | a key written with its line end is read back |
| Rotate.LoadOrGenerate | internal/crypto/keystore.go:15-58 | loads an existing private key, or generates a pair only if there was no private key file; a new pair is written and returned, private to private and public to public; next to a loaded key only a missing public key file is written, with its public key; where no file operation fails it succeeds exactly if there is a readable key or a pair to write |
| RotateMeaning.KeyAtMeaning | internal/crypto/keystore.go:65-77 | a file holds a key if and only if what is left without line ends and spaces at its end decodes to it |
| RotateMeaning.StartTwice | internal/crypto/keystore.go:15-58 | a second start loads the key of the first, and afterwards both files read back as the pair |
| Rotate.SealedFile.Load | internal/crypto/sealedfile.go:40-56 | what the file opens to; a missing or empty file, and an empty plaintext, count as nothing; a file the key does not open is an error |
| Rotate.SealedFile.Save | internal/crypto/sealedfile.go:83-96 | in every state on the way the file itself is the old one or, at the end, the newly sealed one |
| Rotate.BackupAndReplaceKey | internal/crypto/rotate.go:112-123 | in every state on the way the key file is the old one or, at the end, the new one with the old one complete in the backup |
| Rotate.OpenAll | internal/crypto/rotate.go:50-63 | succeeds only if no store is locked to the old key, and then carries every non-empty plaintext, in order; where no file operation fails, exactly then |
| Rotate.SwapKeys | internal/crypto/rotate.go:83-90 | every state while the keypair is swapped is sound |
| Rotate.RewrapAll | internal/crypto/rotate.go:92-107 | every state while the stores are rewrapped is sound, and at the end every store with content has been sealed anew as often as it is listed |
| Rotate.RewrapStore | internal/crypto/rotate.go:95-105 | one store: complete backup first, then the swap, nothing else touched |
| Rotate.PayloadsExact | internal/crypto/rotate.go:49-63 | each store with content is carried as often as it is listed, with that content, and no other store is |
| RotateMeaning.StoreMeaning | internal/crypto/sealedfile.go:40-56 | a store opens, is carried over, or is locked in terms of what is in the file and what the key makes of it |
| RotateMeaning.PayloadsInOrder | internal/crypto/rotate.go:49-63 | the stores are carried in the order of the list |
| Rotate.SafeRecovers | internal/crypto/rotate.go:18-25 | in every sound state each plaintext opens with the key in place or with the one in its backup, and the key in place is the old or the new one |
| RotateMeaning.NothingLostMeaning | internal/crypto/rotate.go:18-25 | at every point of a rotation each plaintext opens with a key that the key file or its backup holds |
| Rotate.RevertibleStep | internal/crypto/rotate.go:18-21 | work on one file leaves both key files and every store listed once as they were or with their old form in their backup |
| Rotate.SwapStep | internal/crypto/rotate.go:85-87 | the rename of the private key keeps all stores openable through the backup |
| Rotate.StoreStep | internal/crypto/rotate.go:94-106 | the rename of a store seals it anew, with the form before that turn in its backup |
| Rotate.OthersStay | internal/crypto/rotate.go:94-106 | every other store, the public key file and their backups stay as they were |
| Rotate.RotateFrom | internal/crypto/rotate.go:44-109 | the part of `Rotate` after the old key is loaded |
| Rotate.Rotate | internal/crypto/rotate.go:29-110 | on paths that are apart, repeated stores included: at every stopping point, I/O errors included, nothing is lost, only the rotation's own files are touched, and both key files and every store listed once are unchanged or have their old form in the backup; success means the rotation is complete and reports what was moved. On all paths: if any store does not decrypt, no key and no store is replaced; without a readable key there is only an error; a store kept under a name that the rotation made up is lost on the way; where no file operation fails it succeeds exactly if the key is readable, every store opens and the new pair is usable; a rotation that stops lists the stores done before the one it names |
| Rotate.RotatedOpens | internal/crypto/rotate.go:18-25 | after success all stores with content open under the new key to the same plaintext, the backup of a store listed once opens to it under the old key, and both key files read back |
| RotateMeaning.RotationMeaning | internal/crypto/rotate.go:18-25 | a complete rotation file by file: new keys in place, old ones beside them under `.bak.` and the time, each plaintext under the new key with its former content beside it, and missing, empty or empty-plaintext stores as they were |
| Rotate.BackupExactly | internal/crypto/rotate.go:94-106 | the backup of a store opens under the old key if and only if the store was listed once: a second turn backs up the new form |
| Rotate.RepeatedLosesOldForm | internal/crypto/rotate.go:94-106 | a complete rotation with a store listed twice, whose backup no longer opens under the old key |
| Rotate.MovedExactly | internal/crypto/rotate.go:59-61 | a store that opened before opens alike under the new key if and only if its plaintext was not empty: that one is passed over and stays under the old key |
| Rotate.EmptyIsPassedOver | internal/crypto/rotate.go:59-61 | a lawful box, and a complete rotation that leaves a store with the sealed empty text under the old key |
| Rotate.EmptiedIsLost | internal/crypto/rotate.go:94-131 | every name that the rotation makes up is emptied before it is filled, so a store kept there opens under no key at that point |
| Rotate.DefaultsApart | internal/crypto/rotate.go:136-148 | the standard list of stores and the default key files meet the condition on paths, in any directory |
| Scaffold.GitignoreHasEntry | internal/server/formidable_scaffold.go:316-327 | true if and only if some line, trimmed and no comment, is the entry |
| Scaffold.AppendGitignoreEntry | internal/server/formidable_scaffold.go:332-341 | the entry becomes a line of its own, after a line end supplied where the file lacks one |
| Scaffold.EarlierLinesSurvive | internal/server/formidable_scaffold.go:329-341 | the lines afterwards are the earlier lines, all of them in place, and the entry |
| Scaffold.AppendedLists | internal/server/formidable_scaffold.go:316-341 | afterwards an entry is listed if and only if it was, or is the one appended |
| ScaffoldMeaning.EntryMeaning | internal/server/formidable_scaffold.go:312-327 | an entry is listed if and only if it does not begin with # and some line of the file is the entry with at most space around it |
| ScaffoldMeaning.AppendedMeaning | internal/server/formidable_scaffold.go:329-341 | the ledger line is put behind what is there, after a line end where the file has none at its end |
| Scaffold.Survey | internal/server/formidable_scaffold.go:113-144 | one pass over the files finds out whether marker, templates, storage, relations and ignore entry are there |
| Scaffold.PlanShape | internal/server/formidable_scaffold.go:146-214 | the pieces that are missing, in order, or an error if a starter is not in the scaffold |
| ScaffoldMeaning.PieceMeaning | internal/server/formidable_scaffold.go:113-144 | which pieces are there: a valid marker, a file under each of the three directories, an ignore file that lists the ledger |
| ScaffoldMeaning.PlanExactly | internal/server/formidable_scaffold.go:146-214 | a plan exists exactly if every piece that is not there has something to put: the new marker, the last starter of its path, or the mended ignore file |
| ScaffoldMeaning.PlanMeaning | internal/server/formidable_scaffold.go:166-214 | the plan puts the missing pieces and no others, in the fixed order, each with its content |
| Scaffold.ReshapedAt | internal/server/formidable_scaffold.go:157-214 | path by path what one run leaves |
| ScaffoldMeaning.RunMeaning | internal/server/formidable_scaffold.go:166-233 | path by path, a run puts what it needs and leaves everything else as it was |
| Scaffold.ShapedExactly | internal/server/formidable_scaffold.go:216-218 | nothing is left to do if and only if the repository is in shape |
| Scaffold.OneRunShapes | internal/server/formidable_scaffold.go:89-102 | one run brings everything if and only if the new marker is valid or one was there, and the scaffold's ignore file lists the entry or is not needed |
| Scaffold.KeepsFiles | internal/server/formidable_scaffold.go:92-96 | a run removes nothing, leaves every other file and a valid marker as it was, and keeps every ignore line |
| Scaffold.SecondRunWritesNothing | internal/server/formidable_scaffold.go:98-102 | a second run has nothing to write |
| Scaffold.EnsureFormidableShape | internal/server/formidable_scaffold.go:103-233 | a repository in shape is not written to; otherwise all missing pieces come in one commit, undisturbed directly on the head found, and disturbed on the head the commit found, fast-forwarded or merged; their paths are returned |
| Scaffold.EnsureFormidableGitignore | internal/server/formidable_scaffold.go:249-310 | only in a repository with a valid marker and without the entry is anything written, and then the commit that lands changes only the ignore file |
| ScaffoldMeaning.HookMeaning | internal/server/formidable_scaffold.go:249-296 | the hook leaves the file exactly without a valid marker or with the entry listed; otherwise it mends a file with something in it, puts the first starter in place of a missing or empty one, and fails exactly if there is none |
| Scaffold.HealedStays | internal/server/formidable_scaffold.go:235-248 | once healed the entry is listed, the earlier lines are there, and the next run leaves the file alone |

## Left out

- HTTP handlers, routing, admin pages, OAuth, gateway, command line and configuration: plumbing.
- The key-value stores (accounts, clients, credentials, destinations, tokens, sessions), policies and tag phrases: one-step map updates.
- The existence check of a repository, and I/O failures of git itself, which end a call before or without moving the ref.
- `git` commands are the abstract operations their call sites rely on: a swap of a ref fails only if it is not what was expected; `merge-tree` merges path by path, with an uninterpreted content merge for a file both sides changed; no renames, file modes, submodules, or clashes between a file and a directory.
- The texts of commit messages and trailers are opaque labels of a commit, supplied by the caller; so are author, committer and times.
- An operation name other than put or delete, which `Commit` refuses before anything else happens.
- Reading the name and the version of the default branch is one step; the branch name never changes.
- `os.Stat` answers truthfully: an error on an existing key file, which the source would take for its absence, is not modelled. Making a directory has no effect on files.
- `Rewrap` and `BackfillAuditForAll`: the first is not used by `Rotate`, the second runs the seeding for each repository.
- The cryptography is abstract: what is sealed opens under the same key, a key survives its text form. Nothing is claimed about confidentiality. Base64 is the identity on contents.
- Clocks, random numbers and key generation are parameters; so are `time.Parse` for RFC 3339, `strconv.ParseFloat`, the lower-case table and the text of nested values in queries.
- Decoder extras of `encoding/json`: field names matched without regard to case, repeated section names merging, text after the value, the nesting limit, surrogate escapes and invalid UTF-8. A character is a Unicode scalar value.
- Numbers that are Go floats or integers instead of number texts: records are always decoded with number texts.
- `RefSnapshot`: the parse of the ref list; the maps it fills are what `DiffRefSnapshots` is proved for.
- In the scaffold, the files are read at one version; the source reads the marker and the ignore file from the head at that moment. Other writers may act between the reading and the write, and then the commit is merged like any other.
- Rotate.Rotate: the guarantee at every stopping point is stated for paths of which none is a name made up for another (`.new`, `.tmp`, `.bak.` and the time). Otherwise it can fail: a store that is kept under a name the rotation made up is shown to be lost on the way. A key file under such a name, or one file given as two of keys and stores, is not gone through. `Rotate.DefaultsApart` shows the standard paths to be apart.

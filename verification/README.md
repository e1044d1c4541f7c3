# Scripture engine: verified models

This project models the deterministic core of a scripture search engine and of the pipeline that
builds its artifacts, and proves what that core promises. Each module follows one component:

- `CollapseModel`, `CollapseRuns`, `CollapseTheorems`: merging ranked results into passages. The
  loops of the engine are methods over maps, sets and a run buffer; the model says which group each
  rank belongs to, and the theorems say what a page keeps. `PassageTheorems` says what each row shows,
  in terms of the page alone.
- `Pericopes`, `VerseId`: deriving section boundaries from votes, the self-check that follows, the
  query-time lookup, and the verse-id codec. `SectionTheorems` joins the two: what a derivation means
  for the rows of a page.
- `BitOps`, `Utf8`, `Fips180`, `Sha256`: the portable hash. JavaScript's signed 32-bit operators and
  floating sums are written out and shown to compute FIPS 180-4. `HashConstants` shows which numbers its
  constants are, and `HashStandard` what its functions do bit by bit and byte by byte.
- `Canonical`, `JsonParser`, `JsonTheorems`: the canonical printer and a parser that inverts it.
  `JsonBytes` shows that the printed bytes are the shortest ones the parser reads back.
- `RecordStream`, `HashFeed`, `Texts`: length-delimited record streams, in code units and in bytes.
- `Spelling`, `LayerRecords`, `OwnedRows`, `CandidateLayer`: the spelling vocabulary, the chained layer
  fingerprints, the digest of owned rows, and the candidate database whose identity is predicted before
  it is built. `FeedTheorems`, `RowTheorems` and `VocabularyTheorems` spell out, from literal fields, what
  is hashed and what is listed.
- `Proposal`, `ConceptCompiler`, `CandidateBuild`: the interpreter of reviewed ontology operations, the
  compiler of concepts into rows, and the way from a proposal to a candidate layer. `ProposalTheorems` and
  `CompilerTheorems` say what each operation and each concept leads to, field by field.
- `CacheProtocol`, `CacheSafety`, `CacheExclusion`, `CacheWitness`: concurrent candidate builds as a
  state machine with a lock, stale-lock reclaims, staged publication and crashes between any two steps.
  `CacheAftermath` says what a run leaves behind, and `CacheScripts` where undisturbed builds get to.
- `Sampling`, `RowDelta`, `WebDelta`, `OpenbibleDelta`, `Expositions`: rejection sampling, payload
  diffs and the run collapser. `DeltaTheorems` gives each outcome class in terms of the payloads.
- `Outcomes`, `CodeUnits`, `Sorting`: shared vocabulary. Thrown errors are `Outcome` values, strings
  are sequences of 16-bit units compared unit by unit, and sorts are stable sorts by a strict order.

What the code calls from elsewhere is a parameter: the hash in `LayerRecords` and `CandidateLayer`,
the edit policy (`deleteVariants`, `dictionaryDeleteDepth`), phrase and anchor identities, the
tokenizer comparison, SQL's text order, and the checks a candidate has to pass. A `SELECT` without
`ORDER BY` returns its rows in an order callers may not rely on, and a `Set` is listed in an
arbitrary order.

Some properties hold of the code only under a condition, which is stated exactly or with a run that
shows the property fail:

- `Sha256.Sha256Hex` throws exactly from 2^31 - 72 bytes on, where the signed shifts of the padded
  length overflow.
- `JsonTheorems.BytesDecideSameness` identifies negative zero with zero and non-finite numbers with
  null; `JsonTheorems.SignedZeroAndNaNCollide` names them.
- `CacheSafety.PublicationIsSafeExactly`: what is published has passed its checks exactly when no sweep
  deleted a file of its build between the checks and the publication. That takes a blind claim: a
  reclaimer that saw an unnamed lock picks up a named one. No claim is blind while no lock directory
  stays without its owner record for a minute (`CacheSafety.NamedLocksAreNeverBlind`);
  `CacheWitness.BlindClaimBreaksPublication` is a run with one.
- `CacheSafety.ReclaimDeletes`: a reclaim deletes a lock that a living build was using exactly when its
  claim was blind and the lock named a living build, or when it picked up an unnamed lock while a living
  build was making or removing one. `CacheWitness.DropDeletesAnother` and
  `CacheWitness.DropDeletesAnotherUnnamed` are runs in which the deleted lock is the one a living build is
  just making, after seeing a named lock and after seeing an unnamed one.
- `CacheExclusion.LocksAreRespectedExactly`: the lock names its holder exactly until a claim robs a living
  build of it; up to then at most one living build is between acquire and release
  (`CacheExclusion.MutualExclusion`), and only stale claims rob (`CacheExclusion.OnlyStaleClaimsRob`).
  `CacheWitness.BlindClaimSharesTheCache` is a run with two holders.
- `CandidateBuild.BuildProposed`: the check on installed rows cannot fail unless the hash gives one digest
  to two different texts hashed for the base itself.
- `CacheSafety.AbandonedClaimClosesTheKey`: after a crash in the middle of a reclaim no further build of
  that cache key ever acquires the lock.

## Model

| member | source | states |
|---|---|---|
| CollapseModel.GoverningIsUnique | engine/src/createEngine.ts:1017-1035 | at most one span beats all the others that claim a result, so no iteration order of a span set can change the choice |
| CollapseModel.BestExists | engine/src/createEngine.ts:1026-1035 | among any non-empty set of spans one has the largest coverage and, among those, the smallest key |
| CollapseModel.BeatsSeparates | engine/src/createEngine.ts:1028-1032 | of two different spans exactly one beats the other |
| CollapseModel.GroupIsLocated | engine/src/createEngine.ts:1023-1039 | a merged group is non-empty and holds only results whose verse is known |
| CollapseRuns.CountSpans | engine/src/createEngine.ts:1005-1015 | the counting loops leave, for every span, the number of results on the page that it covers |
| CollapseRuns.ChooseSpan | engine/src/createEngine.ts:1026-1035 | the inner loop, over any listing of the set, ends on the governing span |
| CollapseRuns.Claim | engine/src/createEngine.ts:1023-1039 | one step of pass 1b keeps the governing map and the member buckets in agreement with the group keys |
| CollapseRuns.ChooseSpans | engine/src/createEngine.ts:1021-1040 | after pass 1b every claimed result has its governing span and each bucket is its group in rank order |
| CollapseRuns.Flush | engine/src/createEngine.ts:1054-1062 | flushing a block of two or more records one run for exactly its members; a shorter block records none |
| CollapseRuns.Joins | engine/src/createEngine.ts:1073-1080 | a result joins the open block exactly when it is linked to the result before it: same section, neighbouring verse id, no governing anchor on either |
| CollapseRuns.Visit | engine/src/createEngine.ts:1063-1084 | one result of the run scan keeps: everything before the open block is settled, and the block is the current linked stretch |
| CollapseRuns.DetectRuns | engine/src/createEngine.ts:1049-1086 | afterwards a result is in a run exactly when its group key is a run, and two results share a run exactly when they share the key |
| CollapseRuns.StrongestPerLabel | engine/src/createEngine.ts:1105-1113 | the nested loops over members and reasons summarise all reasons of the group in member order |
| CollapseRuns.MergeGroup | engine/src/createEngine.ts:1094-1146 | the loops build the merged row of the model's group; what such a row shows is stated by the `PassageTheorems` rows below |
| CollapseRuns.GroupAnchor | engine/src/createEngine.ts:1199-1222 | the provenance ids of an anchor come out sorted whatever order their set was listed in; what the row cites is stated by `PassageTheorems.AnchorRowCitesTheSpan` |
| CollapseRuns.EmitAt | engine/src/createEngine.ts:1154-1225 | a rank emits its row exactly when no better rank shares its group, and the sets of emitted groups stay exact |
| CollapseRuns.CollapseRuns | engine/src/createEngine.ts:998-1229 | the three passes output exactly one row per group, in the rank order of the groups' best members |
| CollapseTheorems.Conservation | engine/src/createEngine.ts:1008-1228 | the hits shown by the rows are a permutation of the input when every span has provenance |
| CollapseTheorems.OneLeaderEach | engine/src/createEngine.ts:1148-1194 | every result has exactly one emitting rank in its group, and it is the best of the group |
| CollapseTheorems.RowsKeepRankOrder | engine/src/createEngine.ts:1088-1093 | output targets are those of the emitting ranks, in ascending rank order |
| CollapseTheorems.GroupingAddsNoPoints | engine/src/createEngine.ts:1141-1142 | with non-increasing input scores each row scores what its leader scored, and the output is non-increasing |
| CollapseTheorems.ReasonsExplainTheGroup | engine/src/createEngine.ts:1105-1116 | of any list of members the merged chips are strictly ordered, one per label, each the strongest and earliest reason of its label; which members a row gathers is stated by `PassageTheorems.ChipsComeFromMembers` |
| CollapseTheorems.RunIsMaximalBlock | engine/src/createEngine.ts:1042-1086 | a run is a maximal block of rank-consecutive, id-adjacent results of one section, and none of its results is claimed by an anchor |
| CollapseTheorems.LinkedMovesSteadily | engine/src/createEngine.ts:1073-1077 | with distinct verse ids a run moves by +1 throughout or by -1 throughout |
| CollapseTheorems.CanonicalSpansTheHits | engine/src/createEngine.ts:1099-1103 | the label's first and last verses are the smallest and largest of the group |
| CollapseTheorems.RunLabelIsExact | engine/src/createEngine.ts:1128-1140 | with distinct valid verse ids a run's label names one chapter and exactly the verses the run holds |
| CollapseTheorems.ExcerptJoinsEveryVerse | engine/src/createEngine.ts:1141 | joining any list of texts separates them by one space; which texts a row joins, and in which order, is stated by `PassageTheorems.SharedRowShowsItsMembers` |
| PassageTheorems.AnchorGoverns | engine/src/createEngine.ts:1005-1040 | a result travels under an anchor span exactly when its verse is known and some span covers it, and then under the one that covers most of the page, the first by key on a tie |
| PassageTheorems.SectionRowsAreChains | engine/src/createEngine.ts:1042-1086 | two results share a section row exactly when every two rank neighbours between them lie in one section, one verse id apart and free of anchor spans |
| PassageTheorems.LoneRowIsTheHit | engine/src/createEngine.ts:1154-1194 | a result that shares its row with no other is shown unchanged, without verses or grouping |
| PassageTheorems.SharedRowShowsItsMembers | engine/src/createEngine.ts:1094-1146 | a shared row holds exactly the results of its group: their texts by verse id with one space between, the results themselves in that order if it is grouped, the best-ranked target and the best score |
| PassageTheorems.MembersAscend | engine/src/createEngine.ts:1099-1103 | members with distinct verses come strictly ascending by verse id |
| PassageTheorems.LabelNamesTheEnds | engine/src/createEngine.ts:1128-1140 | the label names chapter and verse of the least and of the greatest member, the chapter of the greatest only if it differs |
| PassageTheorems.MembersLieBetween | engine/src/createEngine.ts:1099-1103 | every member lies between the two verses of the label |
| PassageTheorems.SectionRowCitesTheSection | engine/src/createEngine.ts:1155-1187 | a section row cites the first and last verse, the source and the votes of the section its results lie in |
| PassageTheorems.AnchorRowCitesTheSpan | engine/src/createEngine.ts:1199-1222 | a shared anchor row cites start, end and every source of its span once, ascending; without provenance it cites nothing |
| PassageTheorems.ChipsCoverEveryMember | engine/src/createEngine.ts:1105-1113 | every reason of every member has a chip of its label with at least its points |
| PassageTheorems.ChipsComeFromMembers | engine/src/createEngine.ts:1105-1113 | every chip is the reason of a member: the strongest of its label, of those the best ranked member's first |
| PassageTheorems.ChipsAreOrdered | engine/src/createEngine.ts:1114-1116 | chips come by points descending, then by label |
| PassageTheorems.PageListsLeaders | engine/src/createEngine.ts:1148-1228 | the page lists the row of exactly those ranks that share it with no better rank, in rank order |
| VerseId.ParseInvertsMake | pipeline/src/verseId.ts:20-45 | parsing gives a location exactly when making an id from it gives that id back; nothing else parses |
| VerseId.NeighbourStaysInChapter | pipeline/src/verseId.ts:20-45 | two valid ids one apart are neighbouring verses of one chapter |
| VerseId.MakeSpells | pipeline/src/verseId.ts:20-33 | an id takes a book from 1 to 66 and a chapter and a verse from 1 to 999, and the first one out of range is named |
| VerseId.ParseSpells | pipeline/src/verseId.ts:35-45 | parsing takes exactly the ids of such a place and gives the place back |
| Pericopes.BoundaryVotes | pipeline/src/buildPericopes.ts:55-61 | the map holds for every verse the sum of the votes of all rows that start there |
| Pericopes.Sweep | pipeline/src/buildPericopes.ts:85-105 | one pass with `close` produces the tiling cut at every opening verse |
| Pericopes.SelfCheck | pipeline/src/buildPericopes.ts:107-133 | the runtime check throws exactly when the pericopes are inverted, disordered or do not cover each present verse once |
| Pericopes.TilingPassesSelfCheck | pipeline/src/buildPericopes.ts:107-131 | what the sweep produces always satisfies the check |
| Pericopes.DerivePericopes | pipeline/src/buildPericopes.ts:76-134 | for every row list, present set and threshold the derivation never throws and returns the tiling of the sorted present verses |
| Pericopes.TilingIsOrdered | pipeline/src/buildPericopes.ts:71-74 | pericopes of a tiling are ordered and apart |
| Pericopes.EachVerseOnce | pipeline/src/buildPericopes.ts:71-74 | every present verse lies in exactly one pericope |
| Pericopes.PericopeIsSound | pipeline/src/buildPericopes.ts:66-69 | a pericope starts at an opening verse, stays in one book, opens nowhere inside and stores all votes at its start |
| Pericopes.VotesSpell | pipeline/src/buildPericopes.ts:55-61 | a row votes for the verse it starts at and for no other, and votes add up over the rows |
| Pericopes.TilingSpells | pipeline/src/buildPericopes.ts:66-105 | a pericope starts at the first verse, at the first verse of a book and at a verse with at least the threshold of votes, and nowhere else; it ends before the next one and stores the votes at its start |
| Pericopes.HigherThresholdUnions | pipeline/src/buildPericopes.ts:66-69 | every pericope under a threshold lies inside one under any higher threshold |
| Pericopes.PericopeOf | engine/src/createEngine.ts:616-630 | the query-time map holds a section that contains the verse, and holds one whenever there is one |
| Pericopes.LookupForgetsOrder | engine/src/createEngine.ts:616-630 | over ordered pericopes neither row order nor verse order changes the map |
| SectionTheorems.LinkedMeansOnePericope | engine/src/createEngine.ts:1049-1086 | over a stored derivation two rank-neighbours are linked exactly when no anchor claims either, their ids are one apart and one derived pericope holds both |
| SectionTheorems.SectionRowIsOnePericope | engine/src/createEngine.ts:1155-1187 | a section row lies in one derived pericope, cites its range and the sum of all votes at its start, and crosses no boundary |
| SectionTheorems.PageForgetsOrder | engine/src/createEngine.ts:616-630 | the page does not depend on the order of the stored pericopes or of the verses looked up |
| BitOps.SignedOperators | conformance/src/sha256.ts:23-25 | JavaScript's signed 32-bit operators compute the unsigned word operations |
| Utf8.PushCode | conformance/src/sha256.ts:39-51 | the shifts and masks push the RFC 3629 section 3 layout of the code point |
| Utf8.Utf8Bytes | conformance/src/sha256.ts:28-53 | the loop produces the encoding of the text's code points, a lone surrogate standing for itself |
| Utf8.DecodeEncodes | conformance/src/sha256.ts:28-53 | decoding the bytes of any list of code points gives the list back |
| Utf8.RoundTrip | conformance/src/sha256.ts:28-53 | a decoder recovers every sequence of code units, lone surrogates included |
| Utf8.EncodingIsInjective | conformance/src/sha256.ts:28-53 | two texts share their bytes exactly when they are equal |
| Utf8.ValidExactlyWhenWellFormed | conformance/src/sha256.ts:28-53 | the bytes are valid UTF-8 (RFC 3629 section 4) exactly when every surrogate is paired |
| Utf8.LoneSurrogateIsNotValid | conformance/src/sha256.ts:28-53 | a concrete text whose bytes are not valid UTF-8 |
| HashStandard.EncodingSpells | conformance/src/sha256.ts:28-53 | the bytes of a text are those of its first code point, written out in the four layouts of RFC 3629 section 3, followed by those of the rest |
| Fips180.PadIsShortest | conformance/src/sha256.ts:59-67 | padding is the shortest multiple of 64 bytes with 0x80, zeros and the 64-bit big-endian bit length |
| Fips180.PadIsInvertible | conformance/src/sha256.ts:59-67 | the message can be read back from its padded form |
| Sha256.RotrRefines | conformance/src/sha256.ts:23-25 | `rotr` through two signed shifts and an or is the word rotation of FIPS 180-4 section 3.2 |
| Sha256.Choose | conformance/src/sha256.ts:86 | the signed `ch` expression is Ch of FIPS 180-4 section 4.1.2 |
| Sha256.Majority | conformance/src/sha256.ts:89 | the signed `maj` expression is Maj of FIPS 180-4 section 4.1.2 |
| Sha256.RoundStep | conformance/src/sha256.ts:84-99 | one round in floating sums and `>>> 0` is one round of FIPS 180-4 section 6.2.2 modulo 2^32 |
| Sha256.FillSchedule | conformance/src/sha256.ts:75-82 | the two loops fill `w` with the message schedule of the block |
| Sha256.HashBlock | conformance/src/sha256.ts:74-108 | one block updates `h` in place to the next hash value |
| Sha256.PaddedLengthFits | conformance/src/sha256.ts:60 | below 2^31 - 72 bytes the signed shift expression is the padded length |
| Sha256.PaddedLengthWraps | conformance/src/sha256.ts:60 | from 2^31 - 72 bytes on the expression is negative or too small for the data |
| Sha256.PadBuffer | conformance/src/sha256.ts:60-67 | the filled buffer is the padded message |
| Sha256.HexOfWordsDecodes | conformance/src/sha256.ts:110-112 | each group of eight hexadecimal digits decodes to its word |
| Sha256.Sha256Hex | conformance/src/sha256.ts:56-113 | throws exactly from 2^31 - 72 bytes on; otherwise returns the 64 hexadecimal digits of the FIPS 180-4 digest, whose constants and functions the `HashConstants` and `HashStandard` rows fix |
| Sha256.Sha256HexOfText | conformance/src/sha256.ts:56-113 | the same for a text, through its UTF-8 bytes |
| Sha256.HexIsFaithful | conformance/src/sha256.ts:110-112 | equal hexadecimal texts mean equal digests |
| HashConstants.PrimesAreTheFirst | conformance/src/sha256.ts:8-21 | the sixty-four numbers behind the constants are the first primes, ascending and without a gap |
| HashConstants.RoundConstantsAreCubeRoots | conformance/src/sha256.ts:13 | round constant i is the first thirty-two fractional bits of the cube root of the i-th prime, FIPS 180-4 section 4.2.2 |
| HashConstants.InitialHashIsSquareRoots | conformance/src/sha256.ts:69-72 | word i of the initial hash is the first thirty-two fractional bits of the square root of the i-th prime, FIPS 180-4 section 5.3.3 |
| HashStandard.ChooseBits | conformance/src/sha256.ts:86 | bit by bit Ch takes the second word where the first has a one and the third where it has a zero |
| HashStandard.MajorityBits | conformance/src/sha256.ts:89 | bit by bit Maj is one where at least two of the words are |
| HashStandard.SigmaBits | conformance/src/sha256.ts:75-88 | bit k of each of the four sigma functions is the parity of three bits of the word, named by position |
| HashStandard.BlockIsTwoRecurrences | conformance/src/sha256.ts:74-108 | hashing a block is two recurrences over sixty-four steps, with the schedule's own recurrence, whose last words are added to the old hash |
| HashStandard.DigestIsChain | conformance/src/sha256.ts:69-108 | the digest is the last of a chain of hashes that starts from the initial one and takes one block of the padded message after the other |
| HashStandard.PaddedBytes | conformance/src/sha256.ts:59-67 | the padded message is the message, the byte 0x80, zeros and eight bytes, in the fewest blocks of 64 |
| HashStandard.LengthBytes | conformance/src/sha256.ts:63-67 | the last eight bytes are the length in bits, the most significant first |
| HashStandard.DigestDigits | conformance/src/sha256.ts:110-112 | each word gives eight lower-case digits, the most significant first |
| Canonical.PrintsStripped | conformance/src/canonical.ts:24-40 | printing throws exactly on values with a reachable undefined, function, symbol or big integer; otherwise it writes the stripped document with sorted keys, and `JsonBytes.CanonicalBytesAreShortest` says in which bytes |
| Canonical.ItemsAreStripped | conformance/src/canonical.ts:29-31 | an array prints item by item or throws |
| Canonical.FieldsAreStripped | conformance/src/canonical.ts:32-38 | an object prints its kept fields in key order or throws |
| JsonParser.CharsReadBack | conformance/src/canonical.ts:28 | unescaping a quoted text gives the text back (escapes per RFC 8259 section 7), lone surrogates included |
| JsonParser.ReadsBack | conformance/src/canonical.ts:24-40 | the parser recovers every document from its bytes, whatever delimited text follows |
| JsonParser.PrintIsInjective | conformance/src/canonical.ts:24-40 | different stripped documents never share their bytes |
| JsonTheorems.OrderedByKey | conformance/src/canonical.ts:34-36 | the printed keys are strictly ascending |
| CodeUnits.LessSpells | conformance/src/canonical.ts:34-36 | texts are ordered by the first unit in which they differ, and a text comes after its prefixes |
| JsonTheorems.EqualWhenSame | conformance/src/canonical.ts:32-38 | stripped documents are equal exactly when the values are the same up to key order and excluded fields |
| JsonTheorems.BytesDecideSameness | conformance/src/canonical.ts:1-40 | two printable values have equal bytes exactly when they are equal as unordered documents |
| JsonTheorems.BytesGiveTheDocument | conformance/src/canonical.ts:24-40 | the bytes alone give the stripped document back |
| JsonTheorems.SignedZeroAndNaNCollide | conformance/src/canonical.ts:25-27 | the values the bytes confuse: negative zero with zero, non-finite numbers with null |
| JsonTheorems.PrintIsWellFormed | pipeline/src/buildCandidate.ts:366-371 | JSON text never holds a lone surrogate |
| JsonBytes.PrintsWhatIsDenoted | conformance/src/canonical.ts:24-40 | printing succeeds exactly on the values that denote a document: without members named excerpt or of value undefined, keys strictly ascending, non-finite numbers as null |
| JsonBytes.CanonicalBytesAreShortest | conformance/src/canonical.ts:24-40 | the canonical bytes read back, by the grammar of RFC 8259 with its literals, as the document the value denotes, and every other well-formed text that does is longer |
| JsonBytes.BodyIsShortest | conformance/src/canonical.ts:28 | of all well-formed ways to write the body of a string the printer's is the shortest and the only one that short, which fixes every escape |
| JsonBytes.PlainTextIsQuoted | conformance/src/canonical.ts:28 | a text without control characters, quotes, backslashes and lone surrogates is printed as itself between two quotes |
| RecordStream.StreamDecodes | pipeline/src/buildConceptLayer.ts:316-325 | the concatenation of length, separator and record parses back to exactly the records |
| RecordStream.StreamIsInjective | pipeline/src/buildConceptLayer.ts:316-325 | equal streams come from equal record lists |
| HashFeed.RepairedIsWellFormed | pipeline/src/buildConceptLayer.ts:316-325 | replacing lone surrogates gives a well-formed text and changes no well-formed one |
| HashFeed.EncodedJoins | pipeline/src/buildConceptLayer.ts:320-325 | after a well-formed text, encoding the next one separately is encoding the concatenation |
| HashFeed.Hash.Feed | pipeline/src/buildConceptLayer.ts:320-325 | the three updates of one record extend the fed stream by exactly that record |
| HashFeed.FedIsInjective | pipeline/src/buildSpellingIndex.ts:207-226 | two feeds give equal bytes exactly when their records agree up to lone surrogates; for well-formed records, exactly when they are equal |
| HashFeed.DigestRows | pipeline/src/buildCandidate.ts:884-893 | the digest is the hash of the sorted records, each behind its length in bytes |
| HashFeed.RowStreamCountsRows | pipeline/src/buildCandidate.ts:884-893 | two row lists hash the same stream exactly when they are equal as multisets |
| RowTheorems.CellsSpell | pipeline/src/buildCandidate.ts:875-882 | a text cell is `text:`, the length in bytes, a colon and the text; a number cell is `number:` and the number; a missing locator is `null` |
| RowTheorems.RepairSpells | pipeline/src/buildConceptLayer.ts:320-325 | Node encodes U+FFFD for a surrogate without its other half, and every other unit as it is |
| RowTheorems.AnchorRowSpells | pipeline/src/buildCandidate.ts:884-886 | the record of an anchor row is the shortest JSON text of an object with its six columns, named and in key order, each with its own cell |
| RowTheorems.EntryRowSpells | pipeline/src/buildCandidate.ts:884-886 | the same for the four columns of a lexicon row |
| RowTheorems.ConceptRowSpells | pipeline/src/buildCandidate.ts:884-886 | the same for the two columns of a concept row |
| RowTheorems.EdgeRowSpells | pipeline/src/buildCandidate.ts:884-886 | the same for the two columns of a related row |
| RowTheorems.RecordIsContributed | pipeline/src/buildCandidate.ts:886-891 | each record goes into the hash behind its length in bytes and a colon |
| RowTheorems.TableSpells | pipeline/src/buildCandidate.ts:884-892 | a table is hashed as its records in code-unit order |
| RowTheorems.DigestSpells | pipeline/src/buildCandidate.ts:1455-1457 | the digest is the hash of a JSON object that names the hashes of the four tables |
| Texts.SplitUndoesJoin | pipeline/src/buildSpellingIndex.ts:155-180 | splitting undoes joining when no part holds the separator |
| Spelling.Admit | pipeline/src/buildSpellingIndex.ts:128-137 | admitting a word keeps the map a summary of all sightings: origins as a set, the largest document count, no empty word |
| Spelling.AssembleSpellingVocabulary | pipeline/src/buildSpellingIndex.ts:124-159 | the rows are the vocabulary of the sources: strictly ascending terms, all sighted words, joined sorted origins, largest count |
| Spelling.VocabularyIsUnique | pipeline/src/buildSpellingIndex.ts:119-123 | the set of sightings decides the vocabulary |
| Spelling.VocabularyForgetsOrder | pipeline/src/buildSpellingIndex.ts:119-123 | reordering or repeating the entries of any source changes nothing |
| Spelling.TargetsHaveAnotherOrigin | pipeline/src/buildSpellingIndex.ts:162-180 | a word is a correction target exactly when a source other than the verse terms names it |
| Spelling.SpellingDeleteRows | pipeline/src/buildSpellingIndex.ts:189-201 | the loops push the delete rows of each reachable target in vocabulary order |
| Spelling.DeleteRowsPointToTargets | pipeline/src/buildSpellingIndex.ts:182-201 | a delete row exists exactly for a variant of a reachable target, so gate-only words are never proposed |
| VocabularyTheorems.VocabularyListsWords | pipeline/src/buildSpellingIndex.ts:124-159 | rows ascend strictly by word, and a word is listed exactly when it is not empty and in the corpus, the book aliases, the space-separated words of the lexicon, the translation tokens or the verse terms |
| VocabularyTheorems.RowSpells | pipeline/src/buildSpellingIndex.ts:128-158 | a row has the word's largest corpus count, or zero, and the names of the sources that have it, ascending and joined with a plus |
| VocabularyTheorems.DeletesSpell | pipeline/src/buildSpellingIndex.ts:174-201 | there is a delete row exactly for each variant, at a non-zero depth for the length, of a listed word that a source other than the verse terms has |
| LayerRecords.LayerFingerprint | pipeline/src/buildCandidate.ts:1459-1511 | the running hash has met exactly the records of the layer feed; what that feed holds is stated by the `FeedTheorems` rows below |
| LayerRecords.SpellingLayerFingerprint | pipeline/src/buildSpellingIndex.ts:207-226 | the running hash has met exactly the records of the spelling feed, spelled out by `FeedTheorems.SpellingFeedSpells` |
| LayerRecords.AliasLayerFingerprint | pipeline/src/buildAliasLayer.ts:43-67 | the running hash has met exactly the records of the alias feed, spelled out by `FeedTheorems.AliasFeedSpells` |
| FeedTheorems.FedSpells | pipeline/src/buildCandidate.ts:1465-1471 | each record goes into the hash behind its length in units and a space, as UTF-8 |
| FeedTheorems.LayerFeedSpells | pipeline/src/buildCandidate.ts:1459-1511 | the feed is one line, spelled from literal fields, for every concept by id, lexicon entry by concept and phrase, anchor by concept, start and source, edge by its two concepts, section by start and phrase in query order, and one line of counts |
| FeedTheorems.FeedHoldsEveryRow | pipeline/src/buildCandidate.ts:1472-1509 | as a multiset the feed is the sum of the lines of the six tables and one line of counts |
| FeedTheorems.EqualFeedsHoldEqualTables | pipeline/src/buildCandidate.ts:1472-1509 | equal feeds mean the same lines in each of the six tables, each as often |
| FeedTheorems.SpellingFeedSpells | pipeline/src/buildSpellingIndex.ts:207-226 | the spelling feed is the previous identity, the two edit limits, the gate-only origin and one line of term, count and origins per row in order |
| FeedTheorems.AliasFeedSpells | pipeline/src/buildAliasLayer.ts:43-67 | the alias feed is the previous identity and one line of key, title, target, source, weight and locator per row in order |
| FeedTheorems.IdentityIsChained | pipeline/src/buildCandidate.ts:1880-1945 | the identity of a layer is the hash of the concept feed, chained by the spelling feed if there is a spelling index and by the alias feed if there is any alias |
| FeedTheorems.ShippedAnchors | pipeline/src/buildCandidate.ts:1424-1444 | an anchor ships exactly when its first or last verse is present or one of the first 400 ids of its range is; everything else ships |
| FeedTheorems.CountsAreCounted | pipeline/src/buildCandidate.ts:1517-1525 | the counts are the anchors of the topic source and the rows of the three copied tables |
| FeedTheorems.RefusalsSpell | pipeline/src/buildCandidate.ts:1870-1950 | the prediction refuses, in this order, a base whose rows or identity are not the reviewed ones, a candidate whose rows digest like the installed ones, and a base without an identity |
| CandidateLayer.QueryPericopes | pipeline/src/buildCandidate.ts:960-967 | the rows read do not depend on the order SQL returns them in |
| CandidateLayer.QueryPhrases | pipeline/src/buildCandidate.ts:991-1011 | sorting in code-unit order makes the phrase rows independent of the order SQL returns them in |
| CandidateLayer.QueryAliases | pipeline/src/buildAliasLayer.ts:74-104 | the alias rows come in key order, independent of the order SQL returns them in |
| CandidateLayer.ReadSources | pipeline/src/buildSpellingIndex.ts:94-117 | whatever order and repetition the queries return, the sightings are those of the tables |
| CandidateLayer.ProbeRange | pipeline/src/buildCandidate.ts:1424-1428 | the scan finds a present verse at either end or among the first 400 ids, and nothing else |
| CandidateLayer.CompiledOwnedRows | pipeline/src/buildCandidate.ts:1430-1444 | the compiled rows keep exactly the anchors with a present verse, in order |
| CandidateLayer.DatabaseOwnedRows | pipeline/src/buildCandidate.ts:1446-1453 | the rows read back are the owned tables without the topic anchors |
| OwnedRows.TextCellIsInjective | pipeline/src/buildCandidate.ts:875-882 | the cell of a text, its length in bytes first, determines the text |
| OwnedRows.AnchorRowIsInjective | pipeline/src/buildCandidate.ts:884-886 | the record of an anchor row determines the row, optional locator and numbers included |
| OwnedRows.ColumnsAscend | pipeline/src/buildCandidate.ts:885-886 | every record has its columns in the order of their names |
| OwnedRows.RecordsCountRows | pipeline/src/buildCandidate.ts:884-886 | two tables have the same records exactly when they have the same rows, each as often |
| OwnedRows.DigestOwned | pipeline/src/buildCandidate.ts:1455-1457 | one running hash for each owned table and one over the named table digests |
| OwnedRows.SameStreams | pipeline/src/buildCandidate.ts:884-893 | the hashed streams of two sets of owned rows are equal exactly when the rows are the same up to order |
| OwnedRows.DigestForgetsOrder | pipeline/src/buildCandidate.ts:1455-1457 | the order of rows never matters to the digest |
| OwnedRows.DigestTells | pipeline/src/buildCandidate.ts:1455-1457 | two sets of rows have one digest exactly when they are the same, unless the hash confuses two of the ten texts hashed for them |
| CandidateLayer.InstallOwnedLayer | pipeline/src/buildCandidate.ts:1513-1563 | the owned tables become the compiled rows, topic anchors survive, and meta carries the concept-layer fingerprint |
| CandidateLayer.BuildSpellingIndex | pipeline/src/buildSpellingIndex.ts:233-262 | the spelling tables become the vocabulary of the database and its delete rows, and meta is chained over them |
| CandidateLayer.ChainAliases | pipeline/src/buildAliasLayer.ts:113-124 | meta is chained over the alias rows; without rows nothing changes |
| CandidateLayer.InspectLayerExpectation | pipeline/src/buildCandidate.ts:1857-1966 | a read-only prediction of meta, counts and spelling tables; it refuses exactly an unreviewed base, a change without effect on the rows and a base without identity, in that order |
| CandidateLayer.MutateCandidate | pipeline/src/buildCandidate.ts:2064-2083 | after install, spelling rebuild and alias chaining meta differs from the base in the layer fingerprint alone |
| CandidateLayer.InstalledDigest | pipeline/src/buildCandidate.ts:2084-2086 | the installed rows digest like the compiled ones when no compiled anchor is a topic anchor, and otherwise differ if the digest tells these two sets of rows apart |
| CandidateLayer.NoTopicsShip | pipeline/src/buildCandidate.ts:1873-1878 | a base that passed its inspection ships no topic anchor, as long as the digest tells its compiled rows from its installed ones, so a candidate that takes its topic anchors from the base ships none |
| CandidateLayer.BuildLayers | pipeline/src/buildCandidate.ts:2014-2107 | the meta check and the spelling check after the mutation can never fail, nor can the row check for a candidate that brings no topic anchor of its own over a base whose two sets of rows the digest tells apart, and the stored fingerprint is the predicted one |
| ConceptCompiler.CompileLexicon | pipeline/src/importers/ontologyImporter.ts:122-159 | phrases without tokens or with a repeated one are errors; without errors every phrase has its row |
| ConceptCompiler.CompileAnchors | pipeline/src/importers/ontologyImporter.ts:167-201 | anchors that do not resolve, name no source or repeat a range are errors; without errors there is one row for each source of each anchor |
| ConceptCompiler.InNameOrder | pipeline/src/importers/ontologyImporter.ts:101-103 | the concepts come in the order of their file names however the map lists them |
| ConceptCompiler.CompileConcepts | pipeline/src/buildCandidate.ts:1413-1418 | compilation succeeds exactly when every concept is sound and every related concept exists, and then gives the rows of all concepts in file-name order |
| CompilerTheorems.CompiledSpells | pipeline/src/importers/ontologyImporter.ts:99-201 | the compiled concepts are all concepts with their titles, ascending by file name, and entries and edges are theirs one concept after the other, field by field |
| CompilerTheorems.AnchorRowsSpell | pipeline/src/importers/ontologyImporter.ts:167-201 | an anchor that resolves gives one row per source with its range, its weight or one, and its reference as locator |
| CompilerTheorems.RefusedExactly | pipeline/src/importers/ontologyImporter.ts:108-216 | compiling is refused exactly when a concept has no id or title, a phrase without tokens or with one twice, an anchor that does not resolve or has no source, one range twice, or an edge to no concept |
| ConceptCompiler.ProposalAddsNoSource | pipeline/src/buildCandidate.ts:1355-1418 | whatever the operations, every compiled row of the candidate that cites anyone but the editors is a compiled row of the base |
| CandidateBuild.ProposalBringsNoTopics | pipeline/src/buildCandidate.ts:449-458 | no proposal brings a topic anchor, because proposed anchors cite exactly the editors |
| CandidateBuild.BuildProposed | pipeline/src/buildCandidate.ts:2004-2107 | for every proposal the prediction holds: the checks on meta and spelling after the mutation cannot fail, nor can the check on rows unless the hash confuses texts of the base itself, and a refusal happens exactly when compiling or interpreting fails |
| Proposal.OntologyDraft.Apply | pipeline/src/buildCandidate.ts:1357-1410 | one operation changes the draft in place exactly as specified or fails with the specified error |
| Proposal.OntologyDraft.Adjust | pipeline/src/buildCandidate.ts:1386-1397 | an adjustment checks identity, provenance, weight and collision in that order before it rewrites the anchor |
| Proposal.ApplyProposal | pipeline/src/buildCandidate.ts:1355-1411 | the loop returns what the operations in order give, or the first failure |
| Proposal.RunKeepsSources | pipeline/src/buildCandidate.ts:1355-1411 | whatever the operations, no base concept vanishes, its source-derived anchors stay unchanged in order, and a new concept has none |
| Proposal.ChangeKeepsSourced | pipeline/src/buildCandidate.ts:1371-1397 | no single operation touches an anchor that names a source |
| Proposal.RunStaysDistinct | pipeline/src/buildCandidate.ts:1364-1410 | phrase, anchor and related identities that were distinct stay distinct |
| Proposal.StepIsLocal | pipeline/src/buildCandidate.ts:1357-1365 | an operation leaves every concept it does not name as it was |
| Proposal.AddThenRemoveRestores | pipeline/src/buildCandidate.ts:1366-1410 | adding a phrase, a related edge or an anchor and removing it again restores the ontology |
| ProposalTheorems.RunIsStepwise | pipeline/src/buildCandidate.ts:1355-1411 | the operations run one after the other, each on what the one before left, and the first refusal is the answer |
| ProposalTheorems.AnchorAdjustSpells | pipeline/src/buildCandidate.ts:1386-1397 | an adjustment replaces the first anchor of the reviewed identity in place by one of the next locator and the next weight, or is refused, with the reason of each refusal |
| ProposalTheorems.AnchorAddSpells | pipeline/src/buildCandidate.ts:1374-1378 | an anchor add appends an editorial anchor of this locator and weight exactly when everything resolves and no anchor has its identity |
| ProposalTheorems.AnchorRemoveSpells | pipeline/src/buildCandidate.ts:1379-1385 | an anchor remove takes out the first anchor of the identity exactly when the editors are its only source |
| ProposalTheorems.PhraseAddSpells | pipeline/src/buildCandidate.ts:1366-1369 | a phrase add appends the phrase exactly when no phrase has its identity |
| ProposalTheorems.PhraseRemoveSpells | pipeline/src/buildCandidate.ts:1370-1373 | a phrase remove takes out the first phrase of the identity |
| ProposalTheorems.RelatedSpells | pipeline/src/buildCandidate.ts:1398-1408 | a related edge joins the end unless it is there; the first one leaves, or the removal is refused |
| ProposalTheorems.DraftSpells | pipeline/src/buildCandidate.ts:1357-1363 | a draft becomes a concept of its own fields with editorial anchors and no topics, unless its id is taken |
| CacheSafety.PublicationIsSafeExactly | pipeline/src/buildCandidate.ts:2037-2193 | through a whole run, with any number of builds and crashes anywhere, the published path is absent or holds a pair that passed every check of its publisher, exactly when no sweep deleted a file of a build between its checks and its publication |
| CacheSafety.PublicationVetsExactly | pipeline/src/buildCandidate.ts:2150-2155 | one publication passes its checks exactly when no sweep tampered with its build before |
| CacheSafety.PublicationIsSafe | pipeline/src/buildCandidate.ts:2037-2193 | a run without a blind claim tampers with no build, so its published path is safe at every state |
| CacheSafety.NamedLocksAreNeverBlind | pipeline/src/buildCandidate.ts:1815-1844 | while no lock directory stays without its owner record for a minute, no claim is blind; this covers crashes and pauses halfway through making a lock and halfway through removing one |
| CacheSafety.PublishStep | pipeline/src/buildCandidate.ts:2048-2171 | in every run a step leaves the published path alone, puts a whole staged directory where there was none or an empty one, or moves the whole directory into quarantine |
| CacheSafety.VettedStep | pipeline/src/buildCandidate.ts:2084-2149 | a step that does not tamper with a checked build leaves its staging directory as it was checked |
| CacheSafety.DamagedStep | pipeline/src/buildCandidate.ts:2150-2190 | a tampered build is past its checks for good and never publishes a complete pair |
| CacheSafety.TargetsAreDead | pipeline/src/buildCandidate.ts:1732-1745 | without blind claims a sweep only targets staging directories of dead owners |
| CacheWitness.BlindClaimBreaksPublication | pipeline/src/buildCandidate.ts:1757-1800 | a concrete run with a blind claim publishes a directory without its database |
| CacheSafety.ReclaimDeletes | pipeline/src/buildCandidate.ts:1757-1800 | in every run a reclaim deletes the very lock its claim moved aside, after seeing a lock that was stale and of a dead owner or of none; it deletes the lock it saw exactly when that one was still at the lock path, and a lock that a living build was using exactly when the claim was blind and the lock named a living build, or the claim interrupted the making or removing of an unnamed lock |
| CacheSafety.MistakenClaimSurvives | pipeline/src/buildCandidate.ts:1777-1799 | a lock picked up by mistake after seeing a named one is put back or kept and never swept, and is let go to be deleted exactly when it is unnamed and the wait for the lock path was in vain |
| CacheWitness.DropDeletesAnother | pipeline/src/buildCandidate.ts:1779-1799 | a concrete run in which a reclaimer that saw a dead owner's lock is about to delete the fresh lock a living build is just making |
| CacheWitness.DropDeletesAnotherUnnamed | pipeline/src/buildCandidate.ts:1779-1799 | a concrete run in which a reclaimer that saw a stale unnamed lock is about to delete the fresh unnamed lock a living build is just making |
| CacheSafety.AbandonedClaimClosesTheKey | pipeline/src/buildCandidate.ts:1747-1755 | a claim directory nobody living works on stays for good, and from then on no build that has not acquired the lock ever does |
| CacheSafety.CrashAbandons | pipeline/src/buildCandidate.ts:1770-1799 | a crash between moving a lock aside and deleting or restoring it leaves such a directory |
| CacheExclusion.HeldLockIsLeft | pipeline/src/buildCandidate.ts:1802-1855 | whoever moves the lock without robbing anybody shows that no other living build is busy with it |
| CacheExclusion.LocksAreRespectedExactly | pipeline/src/buildCandidate.ts:1802-1855 | up to any point of any run the lock names every living build that holds it, and at most one living build tends an unnamed lock, exactly when no claim took a lock that a living build held or was making or removing; that a lock is given back is stated by `CacheAftermath.LocksAreGivenBack` |
| CacheExclusion.MutualExclusion | pipeline/src/buildCandidate.ts:1802-1855 | in every run, until a claim robs a living build of its lock, at most one living build is between acquire and release |
| CacheExclusion.OnlyStaleClaimsRob | pipeline/src/buildCandidate.ts:1757-1776 | in every run a claim robs only if it is stale: it picks up a lock of somebody else than it saw, or an unnamed lock in the making or the removing |
| CacheExclusion.MutualExclusionWithoutStaleClaims | pipeline/src/buildCandidate.ts:1802-1855 | a run without stale claims has at most one living build between acquire and release |
| CacheWitness.BlindClaimSharesTheCache | pipeline/src/buildCandidate.ts:1802-1855 | a concrete run with a blind claim in which two living builds are between acquire and release |
| CacheAftermath.LocksAreGivenBack | pipeline/src/buildCandidate.ts:1802-1855 | in every run, until a claim robs, the lock names a living build exactly while that build is between writing and removing its record, and no claim directory names a living build; so a build that is done is named nowhere |
| CacheAftermath.ReleaseLeadsOut | pipeline/src/buildCandidate.ts:1850-1855 | a build at its release whose lock names it can only remove its record and then the directory, and one whose lock does not name it ends and leaves the lock alone |
| CacheAftermath.ReleaseReasons | pipeline/src/buildCandidate.ts:2048-2193 | a build comes to its release only after publishing what it staged, a hit its verification accepts, removing what it staged, or finding a rejected entry gone |
| CacheAftermath.LockStep | pipeline/src/buildCandidate.ts:1707-1855 | a step makes an unnamed lock where none was, names an unnamed one after its own build, puts a claimed one back, takes a record away, removes an unnamed one or moves one to a fresh claim, and nothing else |
| CacheAftermath.ClaimsStep | pipeline/src/buildCandidate.ts:1757-1800 | a step adds one claim, puts one back at the free lock path or drops one of its own build |
| CacheAftermath.StagingIsTransient | pipeline/src/buildCandidate.ts:2054-2190 | in every run a living build has a staging directory at most between making it and publishing or removing it |
| CacheAftermath.NothingPublishedIsLost | pipeline/src/buildCandidate.ts:2150-2171 | in every run whatever was published is still whole at the published path or in quarantine, unless it was empty |
| CacheAftermath.OnlyMarkedStagingIsSwept | pipeline/src/buildCandidate.ts:1732-1745 | whoever takes a file out of another build's staging directory holds that build's claimed lock and found its marker there |
| CacheScripts.AcquiringHolds | pipeline/src/buildCandidate.ts:1802-1848 | a build that finds no claim and a free path holds the lock four calls later |
| CacheScripts.ReleasingFrees | pipeline/src/buildCandidate.ts:1850-1855 | release, removal of the record and removal of the directory free the lock path and end the build |
| CacheScripts.BuildCompletes | pipeline/src/buildCandidate.ts:2037-2193 | a build that nobody disturbs publishes what it checked, frees the lock and leaves nothing else |
| CacheScripts.HitChangesNothing | pipeline/src/buildCandidate.ts:2037-2052 | a build that finds an entry its verification accepts changes nothing and ends with the lock path free |
| CacheScripts.RejectedIsQuarantined | pipeline/src/buildCandidate.ts:2042-2053 | a rejected entry is moved into quarantine and its own is prepared |
| CacheScripts.ReclaimCompletes | pipeline/src/buildCandidate.ts:1757-1800 | a dead build's stale lock and marked staging directory are gone when an undisturbed reclaim ends |
| Sampling.SampleDistinctIndexes | eval/src/faithfulnessSample.ts:151-170 | over any prefix of the stream the loop returns the specified sample, or asks for more draws |
| Sampling.SampleIsSound | eval/src/faithfulnessSample.ts:146-150 | indexes are distinct, in range and as many as asked for or as there are |
| Sampling.LaterDrawsAreIgnored | eval/src/faithfulnessSample.ts:151-170 | draws after the sample is complete change nothing |
| Sampling.SmallerSampleIsPrefix | eval/src/faithfulnessSample.ts:151-170 | on one stream a smaller sample starts the larger one |
| Sampling.EveryIndexIsEquallyLikely | eval/src/faithfulnessSample.ts:158-164 | each index is accepted from exactly limit / poolSize draws, fewer than poolSize draws are rejected, and nothing is accepted exactly when the pool exceeds the range |
| Sampling.WholePool | eval/src/faithfulnessSample.ts:156-157 | a pool no larger than the count is returned whole and in order |
| Sampling.SampleSpells | eval/src/faithfulnessSample.ts:158-169 | a larger pool gives the first picks, as many as asked for, from draws below the largest multiple of its size in reach |
| Sampling.PicksSpell | eval/src/faithfulnessSample.ts:161-168 | the picks are the residues of the accepted draws, each once, in the order they first occur |
| RowDelta.ComputeDelta | pipeline/scripts/openbibleDelta.ts:467-536 | a repeated key throws, and nothing else does; otherwise every difference is reported exactly once, in strictly ascending key order |
| RowDelta.DeltaIsPatch | pipeline/scripts/openbibleDelta.ts:467-536 | removing, adding and changing what an unrestricted delta reports turns the old payload into the new one |
| RowDelta.RestrictedDeltaIsPatch | pipeline/scripts/openbibleDelta.ts:516-521 | a restricted delta is the full delta against the new payload cut down to the old keys |
| RowDelta.BucketsPartitionKeys | pipeline/scripts/openbibleDelta.ts:491-521 | each key is added, removed, changed or unchanged, and only one of these |
| RowDelta.EmptyDeltaMeansEqual | pipeline/scripts/openbibleDelta.ts:467-536 | nothing is reported exactly when the payloads are equal |
| RowDelta.DeltaIsUnique | pipeline/scripts/openbibleDelta.ts:467-536 | the payloads and the restriction decide the whole report, order included |
| OpenbibleDelta.ComputeXrefDelta | pipeline/scripts/openbibleDelta.ts:467-536 | the cross-reference diff, keyed by the three verse ids |
| OpenbibleDelta.ImportabilityAgrees | pipeline/scripts/openbibleDelta.ts:498-515 | cutting both sides down to importable edges agrees with the enters-build and leaves-build flags plus the importable additions and removals |
| OpenbibleDelta.ComputeTopicDelta | pipeline/scripts/openbibleDelta.ts:320-402 | the topic diff with its lists of vanished, new and missing subscribed topics, all strictly ordered |
| OpenbibleDelta.TopicListsAddNothing | pipeline/scripts/openbibleDelta.ts:551-571 | a topic that comes or goes always shows in the rows, so the topic lists decide no class on their own |
| OpenbibleDelta.MoreSubscribedNeverLowers | pipeline/scripts/openbibleDelta.ts:551-571 | subscribing to more topics, or learning what is subscribed, never lowers the class |
| OpenbibleDelta.MoreCommittedNeverLowers | pipeline/scripts/openbibleDelta.ts:573-591 | committing more edges, or learning what is committed, never lowers the class |
| OpenbibleDelta.IdenticalMeansSameEdges | pipeline/scripts/openbibleDelta.ts:573-591 | without a licence stop the class is identical exactly when the edges are |
| DeltaTheorems.EdgesInOrder | pipeline/scripts/openbibleDelta.ts:467-536 | additions, removals and vote shifts each come by verse, then by first and last target |
| DeltaTheorems.CrossesAtOneVote | pipeline/scripts/openbibleDelta.ts:498-515 | a shift enters the build when it reaches one vote and leaves it when it drops below |
| DeltaTheorems.XrefClass | pipeline/scripts/openbibleDelta.ts:573-591 | the class by the payloads alone: licence stop, nothing moved, a committed edge moved, or anything else |
| DeltaTheorems.TopicClass | pipeline/scripts/openbibleDelta.ts:551-571 | the class by the payloads alone: licence stop, nothing moved, a row of a subscribed topic moved, or anything else |
| WebDelta.ComputeVerseDelta | pipeline/scripts/webDelta.ts:127-178 | throws exactly on a repeated verse or an unformattable reference; otherwise each difference is reported once, in verse order, split by token identity |
| WebDelta.VerseDeltaIsPatch | pipeline/scripts/webDelta.ts:127-178 | an unrestricted verse delta turns the old payload into the new one |
| WebDelta.ComputedDeltasClassify | pipeline/scripts/webDelta.ts:191-195 | a delta whose verses parse is always classified |
| WebDelta.WiderScopeNeverLowers | pipeline/scripts/webDelta.ts:372-387 | enlarging the fixture scope never lowers the outcome class |
| WebDelta.IdenticalMeansEqual | pipeline/scripts/webDelta.ts:372-376 | the class is identical exactly when the payloads are |
| DeltaTheorems.VerseClass | pipeline/scripts/webDelta.ts:372-387 | the class by the payloads alone: nothing moved, a verse of a fixture or of its chapter was lost or revised, anything was lost, revised or added, or only typography |
| Expositions.CollapseRepeatedBodies | pipeline/src/loadExpositions.ts:65-98 | the nested loops cut the entries into maximal runs of one book and body, one document each |
| Expositions.EachEntryOnce | pipeline/src/loadExpositions.ts:65-98 | over ascending verses every entry lies in exactly one document and has its body |
| Expositions.DocumentsAreMaximal | pipeline/src/loadExpositions.ts:65-98 | documents are ordered and apart, reach from their first entry to their last, stay in one book, and neighbours differ in body or book |
| Expositions.LocatorNamesRange | pipeline/src/loadExpositions.ts:80-94 | the locator names exactly the first and last verse of its document although it gives the book once, and source and author are those of the module |

## Left out

- CollapseRuns.MergeGroup: does not model the printed text of section and provenance labels (nor the error `sectionLabel` raises on an unparsable id); the grouping carries the ids, source ids and votes the texts are made from.
- CollapseRuns.CollapseRuns: scores are reals, so NaN and infinite scores are outside the model.
- VerseId.ParseInvertsMake: ids are integers; the rejection of fractional numbers is not modelled.
- Sha256.Sha256Hex: does not model a failed buffer allocation for inputs below the limit.
- Canonical.PrintsStripped: array holes and symbol keys are not modelled; a finite number is represented by the text its spec-pinned printing gives.
- JsonBytes.CanonicalBytesAreShortest: the parser takes no white space and only lower-case digits in a `\u` escape, so texts with upper-case digits, which can be as long, are not compared; a number is its text.
- HashFeed.DigestRows: the records of rows are given; `OwnedRows` builds them for the owned tables, whose cells are texts, numbers and nulls, and blobs and big integers are not modelled. Fields inside a fingerprint record are not decoded because labels may contain the separator.
- HashFeed.FedIsInjective: the comparator of `snapshotDigest` is locale dependent, so only its records, not their order, are covered.
- CandidateLayer.InstallOwnedLayer: constraint violations and the rollback they cause are not modelled; the four tables are replaced as one transaction.
- CandidateLayer.InspectLayerExpectation: of the checks on base meta only the presence of the layer fingerprint is modelled, and of the counts only those that enter the fingerprint.
- LayerRecords.LayerFingerprint: comparators that never return 0 are taken as strict orders, so records with equal sort keys keep their input order; weights enter as their printed text.
- Proposal.ApplyProposal: the parsing and normalisation of proposals before the interpreter and the KJV range table behind anchor identities are not modelled.
- ConceptCompiler.CompileConcepts: reading the concept files, the wording of the errors, topic subscriptions and the list of cited sources are not modelled; what a reference resolves to and the tokens of a phrase are parameters.
- CandidateBuild.BuildProposed: the provenance checks between compiling and inspecting, and the table digests and descriptor fields compared after the mutation, are not modelled.
- CacheSafety.PublicationIsSafeExactly: the age and the owner of a lock are observed in one step, a restore tests and renames in one step, and a claim directory is removed in one step; a process id that is used again counts as its first owner, and a partly written owner record counts as none.
- CacheSafety.ReclaimDeletes: that a build uses an unnamed lock is read off the builds, which stand between two calls on the lock path; which of several made the directory is not recorded.
- CacheExclusion.MutualExclusion: after a robbery nothing is claimed about who holds the cache, since the robbed build goes on as if it held the lock.
- Sampling.SampleDistinctIndexes: the generator behind the draws is a parameter, and a stream that never completes the sample is a prefix that asks for more.
- OpenbibleDelta.ComputeXrefDelta: formatted labels, and the errors formatting raises on invalid verse ids, are not modelled; scores and votes are exact numbers.
- OpenbibleDelta.ComputeTopicDelta: weights, labels and the ids of subscribed concepts are not modelled.
- Expositions.CollapseRepeatedBodies: a locator is its numbers, not its printed text.
- SQLite access, network fetches, archives, command lines, Markdown reports and the ranker: input and output plumbing around the components above.
- Embedding similarity, the tokenizer, spelling edit distance and the reference resolver: called as parameters or not at all.

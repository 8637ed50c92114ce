# Music scales: catalog, queries, transposition and spread helpers

This project is a Dafny model of the music-scale data module of the React
examples and of the copy-with-override helpers that demonstrate the spread
operator.

The data module holds a fixed catalog of six scales. Each scale has a name,
a list of note names, a type (major, minor, pentatonic or blues) and a
description. The module offers three operations on it:

- a filter by type;
- a lookup by exact name;
- transposition by a number of semitones over the twelve-note chromatic
  alphabet `C C# D D# E F F# G G# A A# B`.

The helpers build new scale records from old ones:

- major scales followed by minor ones;
- a base record renamed, with notes appended;
- notes appended through rest parameters;
- the state updater that appends one note;
- a description generated on request;
- the catalog mapped to records that carry an id and a note count.

Modules:

- `Wrappers` (`wrappers.dfy`): `Option` and `Result`. `None` stands for
  JavaScript's `undefined`.
- `Js` (`js.dfy`): the built-in behaviour the code depends on:
  - the truncating remainder `%`;
  - `indexOf` with its -1 for an absent element;
  - reading an array out of range, which gives `undefined`;
  - rendering `undefined` in a template literal;
  - capitalising a string's first letter.
- `MusicScales` (`music_scales.dfy`):
  - the catalog, `getScalesByType`, `getScaleByName` and `transposeScale`
    as the code writes them;
  - a corrected cyclic transposition.

  The scale record is generic in its note type. `Scale<string>` is a catalog
  scale. `Scale<Option<string>>` is what transposition really returns, since a
  note can come out `undefined`. The field `type` is called `kind`. The
  operations take the catalog as a parameter, and the lemmas apply them to
  the seed `Catalog`.
- `SpreadOperator` (`spread_operator.dfy`): the helpers.

## Model

| member | source | states |
|---|---|---|
| Js.Rem | react-examples-1/src/data/musicScales.ts:65 | `%` keeps the sign of the dividend: in `[0, b)` for a non-negative dividend, in `(-b, 0]` for a negative one, and within one divisor of the floored remainder |
| Js.IndexOf | react-examples-1/src/data/musicScales.ts:64 | (body) `indexOf`: the first position holding the element, or -1; its contract is `IndexOfFirst` |
| Js.At | react-examples-1/src/data/musicScales.ts:66 | (body) `allNotes[newIndex]`: the element at an index in range, `undefined` (None) at any other index |
| Js.Show | react-examples-1/src/data/musicScales.ts:71 | (body) a value inside a template literal: the string itself, or "undefined" |
| Js.RemOfNonNegative | react-examples-1/src/data/musicScales.ts:65 | for a non-negative dividend the truncating and floored remainders agree |
| Js.RemOfNegative | react-examples-1/src/data/musicScales.ts:65 | for a negative dividend that is not a multiple of the divisor, the remainder is negative: the floored one minus the divisor |
| Js.IndexOfFirst | react-examples-1/src/data/musicScales.ts:64 | `indexOf` is -1 exactly when the element is absent; otherwise it is the first position holding the element |
| Js.ToUpper | react-examples-1/src/data/musicScales.ts:71 | a lower-case ASCII letter becomes its upper-case letter; every other character is unchanged |
| Js.Capitalise | react-examples-1/src/data/musicScales.ts:71 | same length; the first character is upper-cased and the rest are kept |
| MusicScales.ScalesByType | react-examples-1/src/data/musicScales.ts:50-52 | the filtered list is never longer than the catalog |
| MusicScales.ScalesByTypeMembers | react-examples-1/src/data/musicScales.ts:50-52 | a scale is in the result iff it is in the catalog and has the requested type; no match gives the empty list |
| MusicScales.ScalesByTypeIsSubsequence | react-examples-1/src/data/musicScales.ts:50-52 | the result is a subsequence of the catalog, so catalog order is kept |
| MusicScales.ScalesByTypeOfConcat | react-examples-1/src/data/musicScales.ts:50-52 | filtering a concatenation is concatenating the filtered parts |
| MusicScales.BucketsPartition | react-examples-1/src/data/musicScales.ts:2-7 | the four type buckets partition any catalog: their sizes add up to its length, and each scale lies in the bucket of its own type only |
| MusicScales.ScaleByName | react-examples-1/src/data/musicScales.ts:55-57 | a found scale carries exactly the requested name |
| MusicScales.ScaleByNameFirst | react-examples-1/src/data/musicScales.ts:55-57 | the result is None iff no scale has the name, and otherwise it is the first scale with that name |
| MusicScales.ScaleByNameFindsMember | react-examples-1/src/data/musicScales.ts:55-57 | when names are distinct, looking up a scale's own name returns that scale |
| MusicScales.ShiftNote | react-examples-1/src/data/musicScales.ts:63-67 | (body) the per-note step over any alphabet: the note's `indexOf` plus the offset, under the truncating `% 12`, read back from the alphabet, `undefined` at a negative position; its lemma rows below state what it gives |
| MusicScales.TransposeNote | react-examples-1/src/data/musicScales.ts:63-67 | (body) the per-note step over `allNotes` |
| MusicScales.TransposedName | react-examples-1/src/data/musicScales.ts:71 | (body) the first new note rendered as in a template literal ("undefined" when it is missing or there is none), a space, and the capitalised type |
| MusicScales.Tag | react-examples-1/src/data/musicScales.ts:5 | (body) the four type strings "major", "minor", "pentatonic", "blues" |
| MusicScales.DisplayType | react-examples-1/src/data/musicScales.ts:71 | (body) the type string with its first letter upper-cased; the values are in `DisplayTypeValues` |
| MusicScales.TransposeScale | react-examples-1/src/data/musicScales.ts:60-74 | same number of notes; each note is the per-note step of the note in the same position; type and description are kept; the name is the first new note (or "undefined", also for a scale with no notes), a space and the capitalised type |
| MusicScales.Resolve | react-examples-1/src/data/musicScales.ts:60 | a transposed scale is a well-typed `MusicScale` iff none of its notes is `undefined`, and then it keeps every field and note value |
| MusicScales.AllNotesChromatic | react-examples-1/src/data/musicScales.ts:61 | `allNotes` has twelve pairwise distinct names |
| MusicScales.IndexOfChromatic | react-examples-1/src/data/musicScales.ts:64 | in such an alphabet `indexOf` finds each name at its own position |
| MusicScales.ShiftNoteUp | react-examples-1/src/data/musicScales.ts:63-67 | a note of the alphabet moved by a non-negative offset is the entry `(index + offset) mod 12` |
| MusicScales.ShiftNoteUndefined | react-examples-1/src/data/musicScales.ts:65-66 | a note comes out `undefined` iff index plus offset is negative and not a multiple of 12 |
| MusicScales.ShiftUnknownNote | react-examples-1/src/data/musicScales.ts:64-66 | a note outside the alphabet is read as index -1: `undefined` with no offset, and entry `(offset - 1) mod 12` for an offset of at least 1 |
| MusicScales.ShiftNotePeriodic | react-examples-1/src/data/musicScales.ts:63-67 | offsets 0 and 12 give a note of the alphabet back, and non-negative offsets 12 apart agree |
| MusicScales.ShiftNoteAdditive | react-examples-1/src/data/musicScales.ts:63-67 | for non-negative offsets, moving by `a` then by `b` is moving by `a + b`, and the intermediate note is in the alphabet |
| MusicScales.DisplayTypeValues | react-examples-1/src/data/musicScales.ts:71 | the capitalised types are "Major", "Minor", "Pentatonic" and "Blues" |
| MusicScales.TransposeScaleDefined | react-examples-1/src/data/musicScales.ts:60-74 | a scale of the alphabet shifted by a non-negative offset has no `undefined` note, and its notes stay in the alphabet |
| MusicScales.TransposeScaleFullCycle | react-examples-1/src/data/musicScales.ts:60-74 | shifting by 12 equals shifting by 0 and gives back the original notes |
| MusicScales.TransposeScaleAdditive | react-examples-1/src/data/musicScales.ts:60-74 | for non-negative offsets, transposing by `a` then `b` gives the whole record of transposing by `a + b`, name included |
| MusicScales.ShiftNoteCyclic | react-examples-1/src/data/musicScales.ts:63-67 | the corrected step is defined iff the note is in the alphabet, and it lands in the alphabet |
| MusicScales.ShiftNoteCyclicAgrees | react-examples-1/src/data/musicScales.ts:63-67 | wherever the step as written is defined for a note of the alphabet (always, for offsets >= 0), it equals the corrected step |
| MusicScales.ShiftNoteCyclicAdditive | react-examples-1/src/data/musicScales.ts:63-67 | the corrected step is additive for all integer offsets, and moving by `-a` undoes moving by `a` |
| MusicScales.FirstUnknownNote | react-examples-1/src/data/musicScales.ts:64 | None iff every note is in the alphabet; otherwise a note of the scale that is not in it |
| MusicScales.TransposeScaleCyclic | react-examples-1/src/data/musicScales.ts:60-74 | Ok iff every note is in the alphabet, otherwise an error naming such a note; on Ok: same length, notes in the alphabet, each the corrected step, type and description kept |
| MusicScales.TransposeScaleCyclicAgrees | react-examples-1/src/data/musicScales.ts:60-74 | for notes of the alphabet, whenever the code's result has no `undefined` note (always for offsets >= 0, and for some negative ones), it is the corrected one, name included |
| MusicScales.TransposeScaleCyclicInverse | react-examples-1/src/data/musicScales.ts:60-74 | corrected transposition is additive for all offsets and undone by the opposite offset |
| MusicScales.CatalogInAlphabet | react-examples-1/src/data/musicScales.ts:10-47 | every catalog note is spelled as in the alphabet |
| MusicScales.CatalogNamesDistinct | react-examples-1/src/data/musicScales.ts:10-47 | catalog names are pairwise distinct |
| MusicScales.CatalogBuckets | react-examples-1/src/data/musicScales.ts:10-52 | C Major and G Major are the major scales, A Minor and E Minor the minor ones, C Pentatonic Major the pentatonic one and A Blues the blues one |
| MusicScales.CatalogLookups | react-examples-1/src/data/musicScales.ts:10-57 | "Nonexistent" and the wrong-case "c major" are not found; "G Major" finds its scale |
| MusicScales.ShiftNoteAt | react-examples-1/src/data/musicScales.ts:63-67 | in any chromatic alphabet, the note at position `p` moves to the entry at the truncated remainder of `p + offset`, or `undefined` |
| MusicScales.TransposeScaleNoteAt | react-examples-1/src/data/musicScales.ts:63-71 | the same for the note in position `i` of a scale; for the first note, the new name is that note or "undefined", a space and the capitalised type |
| MusicScales.CMajorUpTwo | react-examples-1/src/data/musicScales.ts:60-74 | C Major shifted up two is named "D Major" and starts on D |
| MusicScales.PentatonicRenamed | react-examples-1/src/data/musicScales.ts:71 | C Pentatonic Major shifted up two is named "D Pentatonic" and loses "Major" |
| MusicScales.CMajorDownOne | react-examples-1/src/data/musicScales.ts:65-71 | C Major shifted down one has an `undefined` first note and the name "undefined Major"; its second note is C# |
| MusicScales.FlatNoteMisread | react-examples-1/src/data/musicScales.ts:64-66 | "Db" is `undefined` unshifted and becomes C# when shifted up two |
| MusicScales.ShiftNoteCyclicAt | react-examples-1/src/data/musicScales.ts:63-67 | the corrected step moves the alphabet's note `p` to entry `(p + offset) mod 12` |
| MusicScales.TransposeScaleCyclicFirst | react-examples-1/src/data/musicScales.ts:69-72 | the corrected transposition starts on the shifted first note and is named after it |
| MusicScales.CMajorDownOneCyclic | react-examples-1/src/data/musicScales.ts:60-74 | corrected, a major scale starting on C (such as C Major) shifted down one is named "B Major" and starts on B |
| SpreadOperator.AllScales | react-examples-1/src/components/SpreadOperatorExample.tsx:16-18 | the length is the number of majors plus the number of minors |
| SpreadOperator.AllScalesMembers | react-examples-1/src/components/SpreadOperatorExample.tsx:16-18 | a scale is listed iff it is a major or minor scale of the catalog, and no minor scale precedes a major one |
| SpreadOperator.AllScalesOfCatalog | react-examples-1/src/components/SpreadOperatorExample.tsx:16-18 | on the seed catalog the list is C Major, G Major, A Minor, E Minor: four scales |
| SpreadOperator.CreateScaleWithNotes | react-examples-1/src/components/SpreadOperatorExample.tsx:35-40 | name, type and description are kept; the old notes are a prefix and the extra notes the rest |
| SpreadOperator.CreateScaleWithNotesCompose | react-examples-1/src/components/SpreadOperatorExample.tsx:35-40 | appending nothing is the identity; appending twice is appending the concatenation |
| SpreadOperator.CMajorWithSharps | react-examples-1/src/components/SpreadOperatorExample.tsx:104 | C Major with C# and F# appended keeps its name and has the nine notes in order |
| SpreadOperator.ExtendScale | react-examples-1/src/components/SpreadOperatorExample.tsx:28-32 | type and description kept; name "Extended Scale"; notes are the base notes followed by F and G |
| SpreadOperator.ExtendScaleIsCreateWithNotes | react-examples-1/src/components/SpreadOperatorExample.tsx:21-40 | extending is appending F and G with the rest-parameter helper, then overriding the name |
| SpreadOperator.ExtendedScaleValue | react-examples-1/src/components/SpreadOperatorExample.tsx:21-32 | `extendedScale` is "Extended Scale" with notes C D E F G, type major and "Base description" |
| SpreadOperator.AddNote | react-examples-1/src/components/SpreadOperatorExample.tsx:43-48 | the updater keeps name, type and description, adds exactly one note, keeps the old notes as a prefix and ends with the new note |
| SpreadOperator.AddNoteIsCreateWithNotes | react-examples-1/src/components/SpreadOperatorExample.tsx:43-48 | one update is the rest-parameter helper with one extra note |
| SpreadOperator.AddNotes | react-examples-1/src/components/SpreadOperatorExample.tsx:114-125 | (body) the state after the updater has run once per button click, in click order |
| SpreadOperator.AddNotesIsCreateWithNotes | react-examples-1/src/components/SpreadOperatorExample.tsx:43-48 | any series of updates appends the clicked notes in order and changes nothing else |
| SpreadOperator.CustomScaleAfterAddFAddG | react-examples-1/src/components/SpreadOperatorExample.tsx:112-126 | starting from the custom scale C D E, "Add F" then "Add G" gives C D E F G under the same name |
| SpreadOperator.GeneratedDescription | react-examples-1/src/components/SpreadOperatorExample.tsx:54 | (body) the name, " - ", the lower-case type string and " scale" |
| SpreadOperator.CreateScaleWithOptionalProps | react-examples-1/src/components/SpreadOperatorExample.tsx:51-56 | name, notes and type always kept; with the flag (the default) the description is "name - type scale"; without it the result is the scale itself |
| SpreadOperator.OptionalPropsIdempotent | react-examples-1/src/components/SpreadOperatorExample.tsx:51-56 | applying the helper twice with the same flag equals applying it once; the generated description starts with the name |
| SpreadOperator.CMajorOptionalProps | react-examples-1/src/components/SpreadOperatorExample.tsx:135 | C Major's generated description is "C Major - major scale" |
| SpreadOperator.ScalesWithId | react-examples-1/src/components/SpreadOperatorExample.tsx:59-63 | same length as the catalog; entry i keeps scale i, has id i + 1 and a note count equal to its number of notes |
| SpreadOperator.ScalesWithIdRoundTrip | react-examples-1/src/components/SpreadOperatorExample.tsx:59-63 | dropping the added properties gives the catalog back; ids strictly increase, hence are distinct, and lie in 1 to the catalog length |
| SpreadOperator.ScalesWithIdShown | react-examples-1/src/components/SpreadOperatorExample.tsx:146-148 | the first three entries shown are C Major (7 notes), A Minor (7) and C Pentatonic Major (5) |

## Left out

- Rendering, JSX markup, `useState`/`useMemo` wiring and event handlers are not modelled. They are framework glue around the pure functions.
- The statistics panel of `MusicScalesExample.tsx` is not modelled. Its average note count is floating point.
- `JSON.stringify` output and `join(' - ')` text are not modelled. They are display formatting.
- The catalog is a module-level constant in the code. Here every operation takes the catalog as a parameter, and the lemmas use the seed `Catalog`.
- Semitone offsets are integers. A JavaScript `number` can also be fractional, `NaN` or `-0`; the slider only produces integers.
- `toUpperCase` is modelled on ASCII letters only. The type tags are ASCII.
- MusicScales.TransposeScale: the declared return type says every note is a string; the model returns `Option` notes, because the code can produce `undefined`.
- MusicScales.CMajorUpTwo: states the name and the first note only. Every other note follows from `TransposeScaleNoteAt`.
- MusicScales.CMajorDownOne: states the name and the first two notes only, for the same reason.
- MusicScales.CMajorDownOneCyclic: stated for every major scale of the alphabet that starts on C rather than for the catalog entry alone; `CatalogInAlphabet` shows that C Major is one.
- SpreadOperator.AddNote: models the functional updater passed to the state setter; the setter, re-rendering and update batching are left out.
- SpreadOperator.ScalesWithId: the code spreads the scale's fields into a flat object with `id` and `noteCount`; here the scale is kept as one nested field.
- The interactive type filter of `SpreadOperatorExample.tsx` calls `getScalesByType`, which `ScalesByType` models.

## Findings

| source | as written | input that shows it | evidently intended | confidence | as-written member | corrected member |
|---|---|---|---|---|---|---|
| react-examples-1/src/data/musicScales.ts:65-66 | `(currentIndex + semitones) % 12` is a truncating remainder, so a negative sum indexes `allNotes` at a negative position and reads `undefined` | C Major shifted by -1, which the -12..12 slider offers: first note `undefined`, name "undefined Major" | B Major (B C# D# E F# G# A#): a floored remainder, so shifting down mirrors shifting up | high, not executed | MusicScales.CMajorDownOne | MusicScales.TransposeScaleCyclic |
| react-examples-1/src/data/musicScales.ts:64-66 | `indexOf` returns -1 for a note outside the alphabet, and the -1 is used as a position | "Db" shifted by 0 is `undefined`; shifted by 2 it silently becomes C# | report the note as not in the alphabet | medium, not executed | MusicScales.FlatNoteMisread | MusicScales.TransposeScaleCyclic |

In `MusicScales`, `TransposeScaleCyclic` is the corrected transposition. It uses a floored remainder and reports `NoteNotInAlphabet` for a note it cannot place. Three lemmas prove the intended properties about it:

- `TransposeScaleCyclicInverse`: it is additive for all offsets and undone by the opposite offset.
- `TransposeScaleCyclicAgrees`: it agrees with the code whenever the code's result has no `undefined` note. That holds for every offset >= 0 and for some negative ones.
- `CMajorDownOneCyclic`: it turns C Major down one into B Major.

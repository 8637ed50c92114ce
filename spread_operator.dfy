/**
  The copy-with-override helpers of the spread-operator demonstration: each
  builds a new scale record, or a new list of them, from an existing one,
  replacing or extending one or two fields and copying the rest.
 */
module SpreadOperator {
  import opened MusicScales

  // ---------------------------------------------------------------------------
  // Combining lists: `allScales`

  /** The catalog's major scales followed by its minor scales. */
  function AllScales(catalog: seq<MusicScale>): (r: seq<MusicScale>)
    ensures |r| == |ScalesByType(catalog, Major)| + |ScalesByType(catalog, Minor)|
  {
    ScalesByType(catalog, Major) + ScalesByType(catalog, Minor)
  }

  /**
    A scale is listed exactly when it is a major or a minor scale of the catalog,
    and no minor scale comes before a major one.
   */
  lemma AllScalesMembers(catalog: seq<MusicScale>)
    ensures forall s :: s in AllScales(catalog) <==> s in catalog && (s.kind == Major || s.kind == Minor)
    ensures forall i, j :: 0 <= i < j < |AllScales(catalog)| && AllScales(catalog)[i].kind == Minor ==>
                           AllScales(catalog)[j].kind == Minor
  {
    ScalesByTypeMembers(catalog, Major);
    ScalesByTypeMembers(catalog, Minor);
    var majors, r := ScalesByType(catalog, Major), AllScales(catalog);
    assert forall k :: 0 <= k < |majors| ==> r[k] == majors[k] && r[k].kind == Major;
    forall i, j | 0 <= i < j < |r| && r[i].kind == Minor ensures r[j].kind == Minor {
      assert r[j] == ScalesByType(catalog, Minor)[j - |majors|];
    }
  }

  /** On the seed catalog: C Major, G Major, A Minor, E Minor, so four scales. */
  lemma AllScalesOfCatalog()
    ensures AllScales(Catalog) == [Catalog[0], Catalog[4], Catalog[1], Catalog[5]]
    ensures |AllScales(Catalog)| == 4
  {
    CatalogBuckets();
  }

  // ---------------------------------------------------------------------------
  // Rest parameters: `createScaleWithNotes`

  /** The scale with `additionalNotes` appended to its notes; name, type and description are copied. */
  function CreateScaleWithNotes(scale: MusicScale, additionalNotes: seq<string>): (r: MusicScale)
    ensures r.name == scale.name && r.kind == scale.kind && r.description == scale.description
    ensures |r.notes| == |scale.notes| + |additionalNotes|
    ensures r.notes[..|scale.notes|] == scale.notes && r.notes[|scale.notes|..] == additionalNotes
  {
    scale.(notes := scale.notes + additionalNotes)
  }

  /** Appending nothing gives the scale back; appending twice is appending the two lists in order. */
  lemma CreateScaleWithNotesCompose(scale: MusicScale, a: seq<string>, b: seq<string>)
    ensures CreateScaleWithNotes(scale, []) == scale
    ensures CreateScaleWithNotes(CreateScaleWithNotes(scale, a), b) == CreateScaleWithNotes(scale, a + b)
  {
  }

  /** The rendered example: C Major with C# and F# appended. */
  lemma CMajorWithSharps()
    ensures CreateScaleWithNotes(Catalog[0], ["C#", "F#"]).name == "C Major"
    ensures CreateScaleWithNotes(Catalog[0], ["C#", "F#"]).notes == ["C", "D", "E", "F", "G", "A", "B", "C#", "F#"]
  {
  }

  // ---------------------------------------------------------------------------
  // Overriding fields: `extendedScale`

  /** The literal base record of the object-spread demonstration. */
  const BaseScale: MusicScale := Scale("Base Scale", ["C", "D", "E"], Major, "Base description")

  /** A copy of `base` renamed "Extended Scale" whose notes are followed by F and G. */
  function ExtendScale(base: MusicScale): (r: MusicScale)
    ensures r.kind == base.kind && r.description == base.description
    ensures r.name == "Extended Scale" && |r.notes| == |base.notes| + 2
    ensures r.notes[..|base.notes|] == base.notes && r.notes[|base.notes|..] == ["F", "G"]
  {
    base.(name := "Extended Scale", notes := base.notes + ["F", "G"])
  }

  /** Extending is appending F and G with the rest parameters, then overriding the name. */
  lemma ExtendScaleIsCreateWithNotes(base: MusicScale)
    ensures ExtendScale(base) == CreateScaleWithNotes(base, ["F", "G"]).(name := "Extended Scale")
  {
  }

  /** `extendedScale` itself. */
  lemma ExtendedScaleValue()
    ensures ExtendScale(BaseScale) == Scale("Extended Scale", ["C", "D", "E", "F", "G"], Major, "Base description")
  {
  }

  // ---------------------------------------------------------------------------
  // State updates: `addNoteToCustomScale`

  /** The initial state of the custom scale. */
  const CustomScale: MusicScale := Scale("Custom Scale", ["C", "D", "E"], Major, "A custom scale")

  /** The functional updater: the previous scale with `note` appended and every other field kept. */
  function AddNote(prev: MusicScale, note: string): (r: MusicScale)
    ensures r.name == prev.name && r.kind == prev.kind && r.description == prev.description
    ensures |r.notes| == |prev.notes| + 1
    ensures r.notes[..|prev.notes|] == prev.notes && r.notes[|prev.notes|] == note
  {
    prev.(notes := prev.notes + [note])
  }

  /** One update is the rest-parameter helper with a single extra note. */
  lemma AddNoteIsCreateWithNotes(prev: MusicScale, note: string)
    ensures AddNote(prev, note) == CreateScaleWithNotes(prev, [note])
  {
  }

  /** The state after the updater has run once per clicked note, in order. */
  function AddNotes(prev: MusicScale, clicked: seq<string>): MusicScale
    decreases |clicked|
  {
    if |clicked| == 0 then prev else AddNotes(AddNote(prev, clicked[0]), clicked[1..])
  }

  /** Any series of clicks appends the clicked notes in order and changes nothing else. */
  lemma {:induction false} AddNotesIsCreateWithNotes(prev: MusicScale, clicked: seq<string>)
    ensures AddNotes(prev, clicked) == CreateScaleWithNotes(prev, clicked)
    decreases |clicked|
  {
    if |clicked| > 0 {
      AddNotesIsCreateWithNotes(AddNote(prev, clicked[0]), clicked[1..]);
      CreateScaleWithNotesCompose(prev, [clicked[0]], clicked[1..]);
      assert [clicked[0]] + clicked[1..] == clicked;
    }
  }

  /** Clicking "Add F" and then "Add G" shows C - D - E - F - G. */
  lemma CustomScaleAfterAddFAddG()
    ensures AddNotes(CustomScale, ["F", "G"]).notes == ["C", "D", "E", "F", "G"]
    ensures AddNotes(CustomScale, ["F", "G"]).name == "Custom Scale"
  {
    AddNotesIsCreateWithNotes(CustomScale, ["F", "G"]);
  }

  // ---------------------------------------------------------------------------
  // Conditional properties: `createScaleWithOptionalProps`

  /** The description the helper writes: the name, a dash, the type tag and the word "scale". */
  function GeneratedDescription(scale: MusicScale): string
  {
    scale.name + " - " + Tag(scale.kind) + " scale"
  }

  /**
    The scale with its description replaced by the generated one when
    `includeDescription` holds (the default); otherwise a copy of the scale.
   */
  function CreateScaleWithOptionalProps(scale: MusicScale, includeDescription: bool := true): (r: MusicScale)
    ensures r.name == scale.name && r.notes == scale.notes && r.kind == scale.kind
    ensures !includeDescription ==> r == scale
    ensures includeDescription ==> r.description == GeneratedDescription(scale)
  {
    if includeDescription then scale.(description := GeneratedDescription(scale)) else scale
  }

  /**
    The generated description starts with the name and is unaffected by the old
    description, so applying the helper a second time changes nothing.
   */
  lemma OptionalPropsIdempotent(scale: MusicScale, includeDescription: bool)
    ensures CreateScaleWithOptionalProps(CreateScaleWithOptionalProps(scale, includeDescription), includeDescription) ==
            CreateScaleWithOptionalProps(scale, includeDescription)
    ensures includeDescription ==>
              CreateScaleWithOptionalProps(scale).description[..|scale.name|] == scale.name
  {
  }

  /** The rendered example: C Major with its generated description. */
  lemma CMajorOptionalProps()
    ensures CreateScaleWithOptionalProps(Catalog[0]).description == "C Major - major scale"
  {
  }

  // ---------------------------------------------------------------------------
  // Mapping with added properties: `scalesWithId`

  /** A scale with every field copied, plus a 1-based `id` and the number of its notes. */
  datatype ScaleWithId = ScaleWithId(scale: MusicScale, id: int, noteCount: nat)

  /** Each catalog scale, in order, tagged with its position plus one and its note count. */
  function ScalesWithId(catalog: seq<MusicScale>): (r: seq<ScaleWithId>)
    ensures |r| == |catalog|
    ensures forall i :: 0 <= i < |r| ==> r[i].scale == catalog[i] && r[i].noteCount == |catalog[i].notes|
    ensures forall i :: 0 <= i < |r| ==> r[i].id == i + 1
  {
    seq(|catalog|, i requires 0 <= i < |catalog| => ScaleWithId(catalog[i], i + 1, |catalog[i].notes|))
  }

  /** The scales with the added properties dropped. */
  function Strip(xs: seq<ScaleWithId>): (r: seq<MusicScale>)
    ensures |r| == |xs| && forall i :: 0 <= i < |xs| ==> r[i] == xs[i].scale
  {
    seq(|xs|, i requires 0 <= i < |xs| => xs[i].scale)
  }

  /**
    Dropping the added properties gives the catalog back, and the ids run from 1
    to the catalog's length, strictly increasing, so no two scales share one.
   */
  lemma ScalesWithIdRoundTrip(catalog: seq<MusicScale>)
    ensures Strip(ScalesWithId(catalog)) == catalog
    ensures forall i, j :: 0 <= i < j < |catalog| ==> ScalesWithId(catalog)[i].id < ScalesWithId(catalog)[j].id
    ensures forall x :: x in ScalesWithId(catalog) ==> 1 <= x.id <= |catalog|
  {
  }

  /** The first three entries shown: C Major, A Minor and C Pentatonic Major with 7, 7 and 5 notes. */
  lemma ScalesWithIdShown()
    ensures ScalesWithId(Catalog)[0].scale.name == "C Major" && ScalesWithId(Catalog)[0].noteCount == 7
    ensures ScalesWithId(Catalog)[1].scale.name == "A Minor" && ScalesWithId(Catalog)[1].noteCount == 7
    ensures ScalesWithId(Catalog)[2].scale.name == "C Pentatonic Major" && ScalesWithId(Catalog)[2].noteCount == 5
  {
  }
}

/**
  The music-scale catalog: a fixed list of scales, the filter by type, the
  lookup by name, and transposition by a number of semitones over the
  twelve-note chromatic alphabet.
 */
module MusicScales {
  import opened Wrappers
  import Js

  /** The closed set of scale types. */
  datatype ScaleType = Major | Minor | Pentatonic | Blues

  /** The string literal that stands for each type in the data. */
  function Tag(t: ScaleType): string
  {
    match t
    case Major => "major"
    case Minor => "minor"
    case Pentatonic => "pentatonic"
    case Blues => "blues"
  }

  /** The type as the generated scale names show it: its first letter upper-cased. */
  function DisplayType(t: ScaleType): string
  {
    Js.Capitalise(Tag(t))
  }

  /**
    A scale record. The source's field `type` is called `kind` here. The notes
    are strings (N = string) in a catalog scale; in a transposed scale a note
    may be `undefined` (N = Option<string>).
   */
  datatype Scale<N> = Scale(name: string, notes: seq<N>, kind: ScaleType, description: string)

  type MusicScale = Scale<string>

  /** What transposition returns: a note is None where the source reads `undefined`. */
  type TransposedScale = Scale<Option<string>>

  /** The seed catalog, in its fixed order. */
  const Catalog: seq<MusicScale> := [
    Scale("C Major", ["C", "D", "E", "F", "G", "A", "B"], Major,
          "The most common major scale, starting on C"),
    Scale("A Minor", ["A", "B", "C", "D", "E", "F", "G"], Minor,
          "Natural minor scale, relative minor of C Major"),
    Scale("C Pentatonic Major", ["C", "D", "E", "G", "A"], Pentatonic,
          "Five-note scale commonly used in folk and rock music"),
    Scale("A Blues", ["A", "C", "D", "D#", "E", "G"], Blues,
          "Six-note scale with characteristic blues sound"),
    Scale("G Major", ["G", "A", "B", "C", "D", "E", "F#"], Major,
          "Major scale with one sharp (F#)"),
    Scale("E Minor", ["E", "F#", "G", "A", "B", "C", "D"], Minor,
          "Natural minor scale, relative minor of G Major")
  ]

  /** The chromatic alphabet: position i is i semitones above C. */
  const AllNotes: seq<string> := ["C", "C#", "D", "D#", "E", "F", "F#", "G", "G#", "A", "A#", "B"]

  /** Every note is spelled as one of the alphabet's twelve names. */
  ghost predicate InAlphabet(notes: seq<string>)
  {
    forall i :: 0 <= i < |notes| ==> notes[i] in AllNotes
  }

  // ---------------------------------------------------------------------------
  // Filter by type

  /** The scales of `catalog` whose type is `t`, in catalog order. */
  function ScalesByType(catalog: seq<MusicScale>, t: ScaleType): (r: seq<MusicScale>)
    ensures |r| <= |catalog|
  {
    if |catalog| == 0 then []
    else if catalog[0].kind == t then [catalog[0]] + ScalesByType(catalog[1..], t)
    else ScalesByType(catalog[1..], t)
  }

  /** A scale is in the result exactly when it is in the catalog and has type `t`; no match gives the empty list. */
  lemma {:induction false} ScalesByTypeMembers(catalog: seq<MusicScale>, t: ScaleType)
    ensures forall s :: s in ScalesByType(catalog, t) <==> s in catalog && s.kind == t
    ensures (forall i :: 0 <= i < |catalog| ==> catalog[i].kind != t) ==> ScalesByType(catalog, t) == []
  {
    if |catalog| > 0 {
      ScalesByTypeMembers(catalog[1..], t);
      assert catalog == [catalog[0]] + catalog[1..];
    }
  }

  /** `xs` is obtained from `ys` by deleting elements, keeping the order of the rest. */
  ghost predicate IsSubsequence<T>(xs: seq<T>, ys: seq<T>)
  {
    |xs| <= |ys| &&
    (xs == [] || (xs[0] == ys[0] && IsSubsequence(xs[1..], ys[1..])) || IsSubsequence(xs, ys[1..]))
  }

  /** The filter keeps the catalog order. */
  lemma {:induction false} ScalesByTypeIsSubsequence(catalog: seq<MusicScale>, t: ScaleType)
    ensures IsSubsequence(ScalesByType(catalog, t), catalog)
  {
    if |catalog| > 0 {
      ScalesByTypeIsSubsequence(catalog[1..], t);
    }
  }

  /** Filtering a concatenation filters each part: the relative order of the matches is kept. */
  lemma {:induction false} ScalesByTypeOfConcat(a: seq<MusicScale>, b: seq<MusicScale>, t: ScaleType)
    ensures ScalesByType(a + b, t) == ScalesByType(a, t) + ScalesByType(b, t)
  {
    if |a| > 0 {
      assert (a + b)[1..] == a[1..] + b;
      ScalesByTypeOfConcat(a[1..], b, t);
    } else {
      assert a + b == b;
    }
  }

  /** The four type buckets partition any catalog: their sizes add up and each scale lies in exactly one. */
  lemma {:induction false} BucketsPartition(catalog: seq<MusicScale>)
    ensures |ScalesByType(catalog, Major)| + |ScalesByType(catalog, Minor)|
          + |ScalesByType(catalog, Pentatonic)| + |ScalesByType(catalog, Blues)| == |catalog|
    ensures forall s, t :: s in catalog ==> (s in ScalesByType(catalog, t) <==> t == s.kind)
  {
    if |catalog| > 0 {
      BucketsPartition(catalog[1..]);
    }
    ScalesByTypeMembers(catalog, Major);
    ScalesByTypeMembers(catalog, Minor);
    ScalesByTypeMembers(catalog, Pentatonic);
    ScalesByTypeMembers(catalog, Blues);
  }

  // ---------------------------------------------------------------------------
  // Lookup by name

  /** The first scale of `catalog` whose name equals `name` exactly, or None. */
  function ScaleByName(catalog: seq<MusicScale>, name: string): (r: Option<MusicScale>)
    ensures r.Some? ==> r.value.name == name
  {
    if |catalog| == 0 then None
    else if catalog[0].name == name then Some(catalog[0])
    else ScaleByName(catalog[1..], name)
  }

  /**
    The lookup gives None exactly when no scale has the name, and otherwise the
    scale at the first position whose name matches.
   */
  lemma {:induction false} ScaleByNameFirst(catalog: seq<MusicScale>, name: string)
    ensures ScaleByName(catalog, name).None? <==> forall i :: 0 <= i < |catalog| ==> catalog[i].name != name
    ensures forall k :: 0 <= k < |catalog| && catalog[k].name == name &&
                        (forall j :: 0 <= j < k ==> catalog[j].name != name) ==>
                        ScaleByName(catalog, name) == Some(catalog[k])
  {
    if |catalog| > 0 {
      ScaleByNameFirst(catalog[1..], name);
      forall k | 0 < k < |catalog| && catalog[k].name == name && (forall j :: 0 <= j < k ==> catalog[j].name != name)
        ensures ScaleByName(catalog, name) == Some(catalog[k])
      {
        assert catalog[1..][k - 1] == catalog[k];
        assert forall j :: 0 <= j < k - 1 ==> catalog[1..][j].name != name by {
          forall j | 0 <= j < k - 1 ensures catalog[1..][j].name != name {
            assert catalog[1..][j] == catalog[j + 1];
          }
        }
      }
      if catalog[0].name != name && ScaleByName(catalog, name).None? {
        forall i | 0 <= i < |catalog| ensures catalog[i].name != name {
          if i > 0 { assert catalog[i] == catalog[1..][i - 1]; }
        }
      }
    }
  }

  /** With distinct names, looking a scale up by its own name finds that scale. */
  lemma ScaleByNameFindsMember(catalog: seq<MusicScale>, k: nat)
    requires k < |catalog|
    requires forall i, j :: 0 <= i < j < |catalog| ==> catalog[i].name != catalog[j].name
    ensures ScaleByName(catalog, catalog[k].name) == Some(catalog[k])
  {
    ScaleByNameFirst(catalog, catalog[k].name);
  }

  // ---------------------------------------------------------------------------
  // Transposition as the source writes it

  /**
    One note moved by `semitones` over an alphabet (the source's `allNotes`): the
    note's index in the alphabet (-1 when it is absent) plus the offset, under
    JavaScript's truncating `% 12`, then read back from the alphabet, which
    gives `undefined` at a negative index.
   */
  function ShiftNote(alphabet: seq<string>, note: string, semitones: int): Option<string>
  {
    Js.At(alphabet, Js.Rem(Js.IndexOf(alphabet, note) + semitones, 12))
  }

  /** The per-note step of `transposeScale`, over the chromatic alphabet. */
  function TransposeNote(note: string, semitones: int): Option<string>
  {
    ShiftNote(AllNotes, note, semitones)
  }

  /** The name the source gives a transposed scale: the first new note, a space, the capitalised type. */
  function TransposedName(notes: seq<Option<string>>, kind: ScaleType): string
  {
    Js.Show(if |notes| > 0 then notes[0] else None) + " " + DisplayType(kind)
  }

  /**
    A copy of `scale` whose notes are each moved by `semitones` and whose name is
    regenerated; its type and description are kept.
   */
  function TransposeScale(scale: MusicScale, semitones: int): (r: TransposedScale)
    ensures |r.notes| == |scale.notes|
    ensures forall i :: 0 <= i < |scale.notes| ==> r.notes[i] == TransposeNote(scale.notes[i], semitones)
    ensures r.kind == scale.kind && r.description == scale.description
    ensures r.name == Js.Show(if |r.notes| > 0 then r.notes[0] else None) + " " + DisplayType(scale.kind)
  {
    var notes := seq(|scale.notes|, i requires 0 <= i < |scale.notes| => TransposeNote(scale.notes[i], semitones));
    Scale(TransposedName(notes, scale.kind), notes, scale.kind, scale.description)
  }

  /** A transposed scale as a catalog scale, when none of its notes is `undefined`. */
  function Resolve(t: TransposedScale): (r: Option<MusicScale>)
    ensures r.Some? <==> forall i :: 0 <= i < |t.notes| ==> t.notes[i].Some?
    ensures r.Some? ==> r.value.name == t.name && r.value.kind == t.kind && r.value.description == t.description
    ensures r.Some? ==> |r.value.notes| == |t.notes| &&
                        forall i :: 0 <= i < |t.notes| ==> t.notes[i] == Some(r.value.notes[i])
  {
    if forall i :: 0 <= i < |t.notes| ==> t.notes[i].Some? then
      Some(Scale(t.name, seq(|t.notes|, i requires 0 <= i < |t.notes| => t.notes[i].value), t.kind, t.description))
    else
      None
  }

  /** Twelve pairwise distinct note names: the shape of the chromatic alphabet. */
  ghost predicate Chromatic(alphabet: seq<string>)
  {
    |alphabet| == 12 && forall i, j :: 0 <= i < j < |alphabet| ==> alphabet[i] != alphabet[j]
  }

  /** The source's `allNotes` is such an alphabet. */
  lemma AllNotesChromatic()
    ensures Chromatic(AllNotes)
  {
  }

  /** In an alphabet of distinct names every name is found at its own position. */
  lemma IndexOfChromatic(alphabet: seq<string>, i: int)
    requires Chromatic(alphabet) && 0 <= i < |alphabet|
    ensures Js.IndexOf(alphabet, alphabet[i]) == i
  {
    Js.IndexOfFirst(alphabet, alphabet[i]);
  }

  /** Reducing modulo 12 before adding an offset does not change the remainder afterwards. */
  lemma ModTwelveAdd(x: int, b: int)
    ensures (x % 12 + b) % 12 == (x + b) % 12
  {
  }

  /** For a note of the alphabet and a non-negative offset the result is the note `semitones` further round the circle. */
  lemma ShiftNoteUp(alphabet: seq<string>, note: string, semitones: int)
    requires |alphabet| == 12 && note in alphabet && semitones >= 0
    ensures ShiftNote(alphabet, note, semitones) == Some(alphabet[(Js.IndexOf(alphabet, note) + semitones) % 12])
  {
    Js.IndexOfFirst(alphabet, note);
    Js.RemOfNonNegative(Js.IndexOf(alphabet, note) + semitones, 12);
  }

  /**
    The note is `undefined` exactly when its index plus the offset is negative and
    not a multiple of twelve: there the truncating remainder is negative.
   */
  lemma ShiftNoteUndefined(alphabet: seq<string>, note: string, semitones: int)
    requires |alphabet| == 12
    ensures ShiftNote(alphabet, note, semitones).None? <==>
            (Js.IndexOf(alphabet, note) + semitones < 0 && (Js.IndexOf(alphabet, note) + semitones) % 12 != 0)
  {
    var x := Js.IndexOf(alphabet, note) + semitones;
    if x < 0 && x % 12 != 0 {
      Js.RemOfNegative(x, 12);
    } else if x >= 0 {
      Js.RemOfNonNegative(x, 12);
    }
  }

  /**
    A note outside the alphabet is read as index -1: it comes out `undefined` with
    no offset, and silently as some pitch with a positive one.
   */
  lemma ShiftUnknownNote(alphabet: seq<string>, note: string, semitones: int)
    requires |alphabet| == 12 && note !in alphabet && semitones >= 1
    ensures ShiftNote(alphabet, note, 0).None?
    ensures ShiftNote(alphabet, note, semitones) == Some(alphabet[(semitones - 1) % 12])
  {
    Js.IndexOfFirst(alphabet, note);
    Js.RemOfNonNegative(semitones - 1, 12);
  }

  /** Moving a note of the alphabet by 0 or by 12 gives it back, and offsets 12 apart agree. */
  lemma ShiftNotePeriodic(alphabet: seq<string>, note: string, semitones: int)
    requires Chromatic(alphabet) && note in alphabet && semitones >= 0
    ensures ShiftNote(alphabet, note, 0) == Some(note)
    ensures ShiftNote(alphabet, note, 12) == Some(note)
    ensures ShiftNote(alphabet, note, semitones + 12) == ShiftNote(alphabet, note, semitones)
  {
    var i := Js.IndexOf(alphabet, note);
    Js.IndexOfFirst(alphabet, note);
    ShiftNoteUp(alphabet, note, 0);
    ShiftNoteUp(alphabet, note, 12);
    ShiftNoteUp(alphabet, note, semitones);
    ShiftNoteUp(alphabet, note, semitones + 12);
    assert (i + semitones + 12) % 12 == (i + semitones) % 12;
  }

  /** For non-negative offsets, moving by `a` and then by `b` is moving by `a + b`. */
  lemma ShiftNoteAdditive(alphabet: seq<string>, note: string, a: int, b: int)
    requires Chromatic(alphabet) && note in alphabet && a >= 0 && b >= 0
    ensures ShiftNote(alphabet, note, a).Some? && ShiftNote(alphabet, note, a).value in alphabet
    ensures ShiftNote(alphabet, ShiftNote(alphabet, note, a).value, b) == ShiftNote(alphabet, note, a + b)
  {
    var i := Js.IndexOf(alphabet, note);
    var m := (i + a) % 12;
    ShiftNoteUp(alphabet, note, a);
    assert ShiftNote(alphabet, note, a) == Some(alphabet[m]);
    IndexOfChromatic(alphabet, m);
    ShiftNoteUp(alphabet, alphabet[m], b);
    assert ShiftNote(alphabet, alphabet[m], b) == Some(alphabet[(m + b) % 12]);
    ShiftNoteUp(alphabet, note, a + b);
    assert ShiftNote(alphabet, note, a + b) == Some(alphabet[(i + a + b) % 12]);
    ModTwelveAdd(i + a, b);
  }

  /** The four capitalised type names. */
  lemma DisplayTypeValues()
    ensures DisplayType(Major) == "Major" && DisplayType(Minor) == "Minor"
    ensures DisplayType(Pentatonic) == "Pentatonic" && DisplayType(Blues) == "Blues"
  {
  }

  /** For notes of the alphabet and a non-negative offset every new note is defined and in the alphabet. */
  lemma TransposeScaleDefined(scale: MusicScale, semitones: int)
    requires InAlphabet(scale.notes) && semitones >= 0
    ensures Resolve(TransposeScale(scale, semitones)).Some?
    ensures InAlphabet(Resolve(TransposeScale(scale, semitones)).value.notes)
  {
    var t := TransposeScale(scale, semitones);
    AllNotesChromatic();
    forall i | 0 <= i < |t.notes| ensures t.notes[i].Some? && t.notes[i].value in AllNotes {
      ShiftNoteAdditive(AllNotes, scale.notes[i], semitones, 0);
    }
  }

  /** A full cycle of twelve semitones, like no offset at all, gives back the same notes. */
  lemma TransposeScaleFullCycle(scale: MusicScale)
    requires InAlphabet(scale.notes)
    ensures Resolve(TransposeScale(scale, 12)).Some?
    ensures Resolve(TransposeScale(scale, 12)).value.notes == scale.notes
    ensures TransposeScale(scale, 12) == TransposeScale(scale, 0)
  {
    var t12, t0 := TransposeScale(scale, 12), TransposeScale(scale, 0);
    AllNotesChromatic();
    forall i | 0 <= i < |scale.notes| ensures t12.notes[i] == Some(scale.notes[i]) == t0.notes[i] {
      ShiftNotePeriodic(AllNotes, scale.notes[i], 0);
    }
    assert t12.notes == t0.notes;
    TransposeScaleDefined(scale, 12);
    assert Resolve(t12).value.notes == scale.notes;
  }

  /** For non-negative offsets, transposing by `a` and then by `b` gives the same scale as transposing by `a + b`. */
  lemma TransposeScaleAdditive(scale: MusicScale, a: int, b: int)
    requires InAlphabet(scale.notes) && a >= 0 && b >= 0
    ensures Resolve(TransposeScale(scale, a)).Some?
    ensures TransposeScale(Resolve(TransposeScale(scale, a)).value, b) == TransposeScale(scale, a + b)
  {
    TransposeScaleDefined(scale, a);
    AllNotesChromatic();
    var mid := Resolve(TransposeScale(scale, a)).value;
    var lhs, rhs := TransposeScale(mid, b), TransposeScale(scale, a + b);
    forall i | 0 <= i < |scale.notes| ensures lhs.notes[i] == rhs.notes[i] {
      ShiftNoteAdditive(AllNotes, scale.notes[i], a, b);
    }
    assert lhs.notes == rhs.notes;
  }

  // ---------------------------------------------------------------------------
  // Transposition with a floored remainder (the evidently intended behaviour)

  /** Why a scale cannot be transposed: one of its notes is not in the alphabet. */
  datatype TransposeError = NoteNotInAlphabet(note: string)

  /** One note moved by `semitones` round the twelve-note circle, for any offset; None for a note outside the alphabet. */
  function ShiftNoteCyclic(alphabet: seq<string>, note: string, semitones: int): (r: Option<string>)
    requires |alphabet| == 12
    ensures r.Some? <==> note in alphabet
    ensures r.Some? ==> r.value in alphabet
  {
    if note in alphabet then Some(alphabet[(Js.IndexOf(alphabet, note) + semitones) % 12]) else None
  }

  /** Where the source's step is defined for a note of the alphabet it agrees with the cyclic one; for offsets >= 0 it always is. */
  lemma ShiftNoteCyclicAgrees(alphabet: seq<string>, note: string, semitones: int)
    requires |alphabet| == 12 && note in alphabet
    requires semitones >= 0 || ShiftNote(alphabet, note, semitones).Some?
    ensures ShiftNote(alphabet, note, semitones) == ShiftNoteCyclic(alphabet, note, semitones)
  {
    var x := Js.IndexOf(alphabet, note) + semitones;
    Js.IndexOfFirst(alphabet, note);
    if x >= 0 {
      Js.RemOfNonNegative(x, 12);
    } else {
      ShiftNoteUndefined(alphabet, note, semitones);
      assert x % 12 == 0;
    }
  }

  /** Cyclic transposition is additive for all offsets, and moving by `-a` undoes moving by `a`. */
  lemma ShiftNoteCyclicAdditive(alphabet: seq<string>, note: string, a: int, b: int)
    requires Chromatic(alphabet) && note in alphabet
    ensures ShiftNoteCyclic(alphabet, ShiftNoteCyclic(alphabet, note, a).value, b) == ShiftNoteCyclic(alphabet, note, a + b)
    ensures ShiftNoteCyclic(alphabet, ShiftNoteCyclic(alphabet, note, a).value, -a) == Some(note)
  {
    var i := Js.IndexOf(alphabet, note);
    var m := (i + a) % 12;
    Js.IndexOfFirst(alphabet, note);
    IndexOfChromatic(alphabet, m);
    ModTwelveAdd(i + a, b);
    ModTwelveAdd(i + a, -a);
    assert i % 12 == i;
  }

  /** The first note of `notes` outside the alphabet, if any. */
  function FirstUnknownNote(notes: seq<string>): (r: Option<string>)
    ensures r.None? <==> InAlphabet(notes)
    ensures r.Some? ==> r.value in notes && r.value !in AllNotes
  {
    if |notes| == 0 then None
    else if notes[0] !in AllNotes then Some(notes[0])
    else FirstUnknownNote(notes[1..])
  }

  /**
    The scale moved by `semitones` round the circle, named as the source names it,
    or the first note that is not in the alphabet.
   */
  function TransposeScaleCyclic(scale: MusicScale, semitones: int): (r: Result<MusicScale, TransposeError>)
    ensures r.Ok? <==> InAlphabet(scale.notes)
    ensures r.Err? ==> r.error.note in scale.notes && r.error.note !in AllNotes
    ensures r.Ok? ==> |r.value.notes| == |scale.notes| && InAlphabet(r.value.notes)
    ensures r.Ok? ==> r.value.kind == scale.kind && r.value.description == scale.description
    ensures r.Ok? ==> forall i :: 0 <= i < |scale.notes| ==>
                        Some(r.value.notes[i]) == ShiftNoteCyclic(AllNotes, scale.notes[i], semitones)
  {
    match FirstUnknownNote(scale.notes)
    case Some(note) => Err(NoteNotInAlphabet(note))
    case None =>
      var notes := seq(|scale.notes|, i requires 0 <= i < |scale.notes| =>
                         ShiftNoteCyclic(AllNotes, scale.notes[i], semitones).value);
      Ok(scale.(name := TransposedName(seq(|notes|, i requires 0 <= i < |notes| => Some(notes[i])), scale.kind),
                notes := notes))
  }

  /**
    For notes of the alphabet, wherever the source's result has no `undefined`
    note (always, for a non-negative offset), it is the cyclic one, name included.
   */
  lemma TransposeScaleCyclicAgrees(scale: MusicScale, semitones: int)
    requires InAlphabet(scale.notes)
    requires semitones >= 0 || Resolve(TransposeScale(scale, semitones)).Some?
    ensures Resolve(TransposeScale(scale, semitones)) == Some(TransposeScaleCyclic(scale, semitones).value)
  {
    var t := TransposeScale(scale, semitones);
    var c := TransposeScaleCyclic(scale, semitones).value;
    forall i | 0 <= i < |scale.notes| ensures t.notes[i] == Some(c.notes[i]) {
      ShiftNoteCyclicAgrees(AllNotes, scale.notes[i], semitones);
    }
    var u := Resolve(t).value;
    assert u.notes == c.notes;
  }

  /** Cyclic transposition of a whole scale is additive for all offsets and undone by the opposite offset. */
  lemma TransposeScaleCyclicInverse(scale: MusicScale, a: int, b: int)
    requires InAlphabet(scale.notes)
    ensures TransposeScaleCyclic(TransposeScaleCyclic(scale, a).value, b) == TransposeScaleCyclic(scale, a + b)
    ensures TransposeScaleCyclic(TransposeScaleCyclic(scale, a).value, -a).value.notes == scale.notes
  {
    AllNotesChromatic();
    var mid := TransposeScaleCyclic(scale, a).value;
    var lhs, rhs := TransposeScaleCyclic(mid, b).value, TransposeScaleCyclic(scale, a + b).value;
    var back := TransposeScaleCyclic(mid, -a).value;
    forall i | 0 <= i < |scale.notes|
      ensures lhs.notes[i] == rhs.notes[i] && back.notes[i] == scale.notes[i]
    {
      ShiftNoteCyclicAdditive(AllNotes, scale.notes[i], a, b);
      ShiftNoteCyclicAdditive(AllNotes, scale.notes[i], a, -a);
    }
    assert lhs.notes == rhs.notes;
    assert back.notes == scale.notes;
  }

  // ---------------------------------------------------------------------------
  // The seed catalog

  /** Every note of the seed catalog is spelled as in the chromatic alphabet. */
  lemma CatalogInAlphabet()
    ensures forall s :: s in Catalog ==> InAlphabet(s.notes)
  {
  }

  /** No two seed scales share a name, so a lookup by name is unambiguous. */
  lemma CatalogNamesDistinct()
    ensures forall i, j :: 0 <= i < j < |Catalog| ==> Catalog[i].name != Catalog[j].name
  {
  }

  /** The buckets of the seed catalog: two major, two minor, one pentatonic, and exactly A Blues. */
  lemma CatalogBuckets()
    ensures ScalesByType(Catalog, Major) == [Catalog[0], Catalog[4]]
    ensures ScalesByType(Catalog, Minor) == [Catalog[1], Catalog[5]]
    ensures ScalesByType(Catalog, Pentatonic) == [Catalog[2]]
    ensures ScalesByType(Catalog, Blues) == [Catalog[3]] && Catalog[3].name == "A Blues"
  {
  }

  /** Looking up a name that no scale has gives None; a present name gives its scale. */
  lemma CatalogLookups()
    ensures ScaleByName(Catalog, "Nonexistent") == None
    ensures ScaleByName(Catalog, "c major") == None
    ensures ScaleByName(Catalog, "G Major") == Some(Catalog[4])
  {
    // Every seed name starts with an upper-case C, A, G or E, so neither probe matches any of them.
    assert forall i :: 0 <= i < |Catalog| ==> Catalog[i].name[0] in "CAGE";
    ScaleByNameFirst(Catalog, "Nonexistent");
    ScaleByNameFirst(Catalog, "c major");
    CatalogNamesDistinct();
    ScaleByNameFindsMember(Catalog, 4);
  }

  /** The source's step on the alphabet's note at position `p`: the entry at the truncated remainder of `p + semitones`. */
  lemma ShiftNoteAt(alphabet: seq<string>, p: int, semitones: int)
    requires Chromatic(alphabet) && 0 <= p < 12
    ensures ShiftNote(alphabet, alphabet[p], semitones) == Js.At(alphabet, Js.Rem(p + semitones, 12))
  {
    IndexOfChromatic(alphabet, p);
  }

  /**
    The note at position `i` of a scale, when it is the alphabet's note `p`, becomes
    the alphabet's entry at the truncated remainder of `p + semitones`; when `i` is
    the first position, the new name is that note (or "undefined") and the type.
   */
  lemma TransposeScaleNoteAt(scale: MusicScale, i: int, p: int, semitones: int)
    requires 0 <= i < |scale.notes| && 0 <= p < 12 && scale.notes[i] == AllNotes[p]
    ensures TransposeScale(scale, semitones).notes[i] == Js.At(AllNotes, Js.Rem(p + semitones, 12))
    ensures i == 0 ==> TransposeScale(scale, semitones).name ==
                       Js.Show(Js.At(AllNotes, Js.Rem(p + semitones, 12))) + " " + DisplayType(scale.kind)
  {
    AllNotesChromatic();
    ShiftNoteAt(AllNotes, p, semitones);
  }

  /** C Major moved up two semitones is named D Major and starts on D. */
  lemma CMajorUpTwo()
    ensures TransposeScale(Catalog[0], 2).name == "D Major"
    ensures TransposeScale(Catalog[0], 2).notes[0] == Some("D")
  {
    TransposeScaleNoteAt(Catalog[0], 0, 0, 2);
    DisplayTypeValues();
  }

  /** Transposing C Pentatonic Major renames it after the new first note and the bare type: "Major" is lost. */
  lemma PentatonicRenamed()
    ensures TransposeScale(Catalog[2], 2).name == "D Pentatonic"
  {
    TransposeScaleNoteAt(Catalog[2], 0, 0, 2);
    DisplayTypeValues();
  }

  /** C Major moved down one semitone: the first note comes out `undefined` instead of B, and so does the name. */
  lemma CMajorDownOne()
    ensures TransposeScale(Catalog[0], -1).name == "undefined Major"
    ensures TransposeScale(Catalog[0], -1).notes[0] == None
    ensures TransposeScale(Catalog[0], -1).notes[1] == Some("C#")
  {
    TransposeScaleNoteAt(Catalog[0], 0, 0, -1);
    TransposeScaleNoteAt(Catalog[0], 1, 2, -1);
    DisplayTypeValues();
  }

  /** A flat spelling is not in the alphabet: D-flat comes out `undefined` unmoved and as C# two semitones up. */
  lemma FlatNoteMisread()
    ensures TransposeNote("Db", 0) == None
    ensures TransposeNote("Db", 2) == Some("C#")
  {
    assert "Db" !in AllNotes;
    ShiftUnknownNote(AllNotes, "Db", 2);
  }

  /** The cyclic step on the alphabet's note `p`: the entry at the floored remainder of `p + semitones`. */
  lemma ShiftNoteCyclicAt(alphabet: seq<string>, p: int, semitones: int)
    requires Chromatic(alphabet) && 0 <= p < 12
    ensures ShiftNoteCyclic(alphabet, alphabet[p], semitones) == Some(alphabet[(p + semitones) % 12])
  {
    IndexOfChromatic(alphabet, p);
  }

  /**
    For a scale of the alphabet whose first note is the alphabet's note `p`, the
    cyclic transposition starts on the note `p + semitones` round the circle and
    is named after it.
   */
  lemma TransposeScaleCyclicFirst(scale: MusicScale, p: int, semitones: int)
    requires InAlphabet(scale.notes) && |scale.notes| > 0 && 0 <= p < 12 && scale.notes[0] == AllNotes[p]
    ensures TransposeScaleCyclic(scale, semitones).Ok?
    ensures TransposeScaleCyclic(scale, semitones).value.notes[0] == AllNotes[(p + semitones) % 12]
    ensures TransposeScaleCyclic(scale, semitones).value.name == AllNotes[(p + semitones) % 12] + " " + DisplayType(scale.kind)
  {
    AllNotesChromatic();
    ShiftNoteCyclicAt(AllNotes, p, semitones);
  }

  /**
    The cyclic transposition of a major scale of the alphabet starting on C, such as
    the catalog's C Major, down one semitone starts on B and is named B Major.
   */
  lemma CMajorDownOneCyclic(scale: MusicScale)
    requires InAlphabet(scale.notes) && |scale.notes| > 0 && scale.notes[0] == "C" && scale.kind == Major
    ensures TransposeScaleCyclic(scale, -1).Ok?
    ensures TransposeScaleCyclic(scale, -1).value.name == "B Major"
    ensures TransposeScaleCyclic(scale, -1).value.notes[0] == "B"
  {
    TransposeScaleCyclicFirst(scale, 0, -1);
    DisplayTypeValues();
  }
}

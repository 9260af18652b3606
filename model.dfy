/**
 The catalogue's records. A Song owns exactly one Melody, held by value: a
 Melody exists only inside the Song that owns it, so it cannot outlive it.
 Fields that the Java entities leave nullable and that the service tests for
 null are Options; the ids are None until the store first persists the record.
 */
module Model {
  import opened Wrappers
  import opened Text
  import opened Enums

  datatype Melody = Melody(
    id: Option<int>,
    pitch: Option<string>,
    duration: Option<string>,
    melodyType: Option<MelodyType>)

  datatype Song = Song(
    id: Option<int>,
    title: string,
    description: string,
    artistName: string,
    duration: string,
    category: Category,
    melody: Melody)

  /** The field constraints declared on Melody: pitch not blank and 3 to 50
      UTF-16 units long, duration not blank (otherwise free text), type set. */
  predicate ValidMelody(m: Melody)
    ensures ValidMelody(m) ==> m.pitch.Some? && 2 <= |m.pitch.value| <= 50
    ensures ValidMelody(m) ==> m.duration.Some? && |m.duration.value| >= 1 && m.melodyType.Some?
  {
    && NotBlank(m.pitch) && 3 <= Utf16Length(m.pitch.value) <= 50
    && NotBlank(m.duration)
    && m.melodyType.Some?
  }

  /** Two songs agree on everything but the ids the store assigns. */
  predicate SameContent(a: Song, b: Song) {
    && a.title == b.title && a.description == b.description
    && a.artistName == b.artistName && a.duration == b.duration
    && a.category == b.category
    && a.melody.pitch == b.melody.pitch && a.melody.duration == b.melody.duration
    && a.melody.melodyType == b.melody.melodyType
  }

  /** The melody of the catalogue's sample song passes every declared constraint. */
  lemma SampleMelodyIsValid()
    ensures ValidMelody(Melody(None, Some("Melody Pitch"), Some("03:56"), Some(COLOR)))
  {
    var p, d := "Melody Pitch", "03:56";
    assert p[0] > ' ' && d[0] > ' ';
    assert forall i :: 0 <= i < |p| ==> p[i] <= '\U{FFFF}';
  }

  /** Each constraint on its own rejects a melody that breaks only it. */
  lemma ShortPitchIsInvalid()
    ensures !ValidMelody(Melody(None, Some("ab"), Some("03:56"), Some(COLOR)))
  {
    var p := "ab";
    assert forall i :: 0 <= i < |p| ==> p[i] <= '\U{FFFF}';
  }

  lemma BlankFieldsAreInvalid()
    ensures !ValidMelody(Melody(None, Some("   "), Some("03:56"), Some(COLOR)))
    ensures !ValidMelody(Melody(None, Some("Melody Pitch"), Some(" "), Some(COLOR)))
    ensures !ValidMelody(Melody(None, Some("Melody Pitch"), Some("03:56"), None))
  {
    var blank, space := "   ", " ";
    assert forall i :: 0 <= i < |blank| ==> blank[i] <= ' ';
    assert forall i :: 0 <= i < |space| ==> space[i] <= ' ';
  }

  /** Duration is opaque text: any non-blank string is accepted, whatever its shape. */
  lemma DurationIsOpaque(m: Melody, d: string)
    requires ValidMelody(m)
    requires NotBlank(Some(d))
    ensures ValidMelody(m.(duration := Some(d)))
  {
  }

  /** The length bound is on UTF-16 units: 26 characters beyond the Basic
      Multilingual Plane make a pitch of 52 units, over the 50-unit limit. */
  lemma PitchLengthCountsUtf16Units(s: string)
    requires |s| == 26 && forall i :: 0 <= i < |s| ==> s[i] > '\U{FFFF}'
    ensures !ValidMelody(Melody(None, Some(s), Some("03:56"), Some(COLOR)))
  {
    assert Utf16Length(s) >= 52 by {
      Utf16LengthOfWide(s);
    }
  }

  lemma {:induction false} Utf16LengthOfWide(s: string)
    requires forall i :: 0 <= i < |s| ==> s[i] > '\U{FFFF}'
    ensures Utf16Length(s) == 2 * |s|
  {
    if s != [] {
      Utf16LengthOfWide(s[1..]);
    }
  }
}

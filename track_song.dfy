/** `TrackSong`: the song of the track sequencer, a lazily filled registry of tracks
    keyed by tone index, the current track, the song file and the derived names of the
    song's files. The `Track` objects themselves are not part of this model beyond
    their identity and index. */
module TrackSongs {
  import opened Wrappers
  import Paths

  /** A `java.io.File`: an optional parent path and a name. */
  datatype FileRef = FileRef(parent: Option<string>, name: string)

  /** Track indices run over the fourteen machine slots, 0..13. */
  const MaxTrackIndex: int := 13

  /** The check `setCurrentTrack` makes, as written: it refuses an index outside
      0..13 and, inverted against its own message, an index that has a track. */
  function CheckCurrentTrackAsWritten(trackIndices: set<int>, value: int): (r: Outcome)
    ensures r == Pass <==> 0 <= value <= MaxTrackIndex && value !in trackIndices
    ensures r.Fail? ==> r.failure == IllegalArgument
  {
    if value < 0 || value > MaxTrackIndex then Fail(IllegalArgument)
    else if value in trackIndices then Fail(IllegalArgument)
    else Pass
  }

  /** The check as its message means it: an index outside 0..13, or one without a
      track, is refused. */
  function CheckCurrentTrack(trackIndices: set<int>, value: int): Outcome {
    if value < 0 || value > MaxTrackIndex then Fail(IllegalArgument)
    else if value !in trackIndices then Fail(IllegalArgument)
    else Pass
  }

  /** The corrected check accepts exactly the tracks that exist. */
  lemma CurrentTrackMustExist(trackIndices: set<int>, value: int)
    ensures CheckCurrentTrack(trackIndices, value) == Pass <==> 0 <= value <= MaxTrackIndex && value in trackIndices
    ensures CheckCurrentTrack(trackIndices, value).Fail? ==> CheckCurrentTrack(trackIndices, value).failure == IllegalArgument
  {
  }

  /** As written, the check refuses the one existing track 3 and accepts track 5, which
      does not exist. */
  lemma CurrentTrackCheckInverted()
    ensures forall t: set<int>, v :: 0 <= v <= MaxTrackIndex ==>
      (CheckCurrentTrackAsWritten(t, v) == Pass <==> CheckCurrentTrack(t, v) != Pass)
    ensures CheckCurrentTrackAsWritten({3}, 3) == Fail(IllegalArgument)
    ensures CheckCurrentTrack({3}, 3) == Pass
    ensures CheckCurrentTrackAsWritten({3}, 5) == Pass
    ensures CheckCurrentTrack({3}, 5) == Fail(IllegalArgument)
  {
  }

  /** A track of the song (`Track(song, index)`). */
  class Track {
    const index: int

    constructor (index: int)
      ensures this.index == index
    {
      this.index := index;
    }
  }

  class TrackSong {
    var tracks: map<int, Track>
    var file: Option<FileRef>
    var currentTrack: int
    /** The end measure of the last pattern in the tracks, if there is one. */
    var lastEndMeasure: Option<int>

    /** Every track is filed under its own index. */
    ghost predicate Valid()
      reads this, tracks.Values
    {
      forall i :: i in tracks ==> tracks[i].index == i
    }

    /** `new TrackSong(sequencer, file)`: no tracks, no current track. */
    constructor (file: Option<FileRef>)
      ensures Valid()
      ensures tracks == map[] && this.file == file && currentTrack == -1 && lastEndMeasure == None
    {
      tracks := map[];
      this.file := file;
      currentTrack := -1;
      lastEndMeasure := None;
    }

    /** `exists`: the song has a file. */
    function Exists(): (r: bool)
      reads this
      ensures r <==> file.Some?
    {
      file != None
    }

    /** `getDirectory`: the parent of the song file; null without a file. */
    function GetDirectory(): (r: Option<string>)
      reads this
      ensures file.None? ==> r.None?
      ensures file.Some? ==> r == file.value.parent
    {
      if file.None? then None else file.value.parent
    }

    /** `getFileName`: the file's name with ".ctks" removed; null without a file. */
    function GetFileName(): (r: Option<string>)
      reads this
      ensures r.Some? <==> file.Some?
      ensures r.Some? ==> r.value == Paths.ReplaceAll(file.value.name, Paths.SongExtension, "")
    {
      if file.None? then None else Some(Paths.ReplaceAll(file.value.name, Paths.SongExtension, ""))
    }

    /** `getCausticFile`: the sibling file named after the song with ".caustic"; null
        without a file. */
    function GetCausticFile(): (r: Option<FileRef>)
      reads this
      ensures r.Some? <==> file.Some?
      ensures r.Some? ==> r.value.parent == GetDirectory()
      ensures r.Some? ==> r.value.name == GetFileName().value + ".caustic"
    {
      if file.None? then None else Some(FileRef(GetDirectory(), GetFileName().value + ".caustic"))
    }

    /** A song saved as `base.ctks` has its engine file `base.caustic` beside it. */
    lemma CausticFileIsSibling(base: string)
      requires file.Some? && file.value.name == base + Paths.SongExtension
      requires Paths.FreeOf(base, Paths.SongExtension)
      ensures GetFileName() == Some(base)
      ensures GetCausticFile() == Some(FileRef(file.value.parent, base + ".caustic"))
    {
      Paths.StripSongExtension(base);
    }

    /** `hasTracks`: the registry is not empty. */
    function HasTracks(): (r: bool)
      reads this
      ensures r <==> tracks != map[]
    {
      |tracks| > 0
    }

    /** `getNumMeasures`: the end measure of the last pattern, or 0 without one. */
    function GetNumMeasures(): (r: int)
      reads this
      ensures lastEndMeasure.None? ==> r == 0
      ensures lastEndMeasure.Some? ==> r == lastEndMeasure.value
    {
      if lastEndMeasure.None? then 0 else lastEndMeasure.value
    }

    /** `getNumBeats`: four beats to each measure of the song. */
    function GetNumBeats(): (r: int)
      reads this
      ensures r == 4 * GetNumMeasures()
    {
      if lastEndMeasure.None? then 0 else lastEndMeasure.value * 4
    }

    /** `setCurrentTrack`, with the existence check the right way round (see
        `CheckCurrentTrackAsWritten` for the check as the source writes it): an index
        outside 0..13 or without a track is refused; the current value is ignored. */
    method SetCurrentTrack(value: int) returns (o: Outcome)
      modifies this
      ensures o == CheckCurrentTrack(tracks.Keys, value)
      ensures o.Pass? ==> currentTrack == value && currentTrack in tracks
      ensures o.Fail? ==> currentTrack == old(currentTrack)
      ensures tracks == old(tracks) && file == old(file) && lastEndMeasure == old(lastEndMeasure)
    {
      if value < 0 || value > 13 {
        return Fail(IllegalArgument);
      }
      if value !in tracks {
        return Fail(IllegalArgument);
      }
      o := Pass;
      if value == currentTrack {
        return;
      }
      currentTrack := value;
    }

    /** `setCurrentTrack` as the source writes it: an index outside 0..13 is refused,
        and so is an index that HAS a track; the current value is ignored. Only an index
        without a track can become current. */
    method SetCurrentTrackAsWritten(value: int) returns (o: Outcome)
      modifies this
      ensures o == CheckCurrentTrackAsWritten(tracks.Keys, value)
      ensures o.Pass? ==> currentTrack == value && currentTrack !in tracks
      ensures o.Fail? ==> currentTrack == old(currentTrack)
      ensures tracks == old(tracks) && file == old(file) && lastEndMeasure == old(lastEndMeasure)
    {
      if value < 0 || value > 13 {
        return Fail(IllegalArgument);
      }
      if value in tracks {
        return Fail(IllegalArgument);
      }
      o := Pass;
      if value == currentTrack {
        return;
      }
      currentTrack := value;
    }

    /** `getTrack(index)`: the track filed at the index, or a new one filed there.
        Repeated calls give the same track. */
    method GetTrack(index: int) returns (t: Track)
      requires Valid()
      modifies this
      ensures Valid()
      ensures t.index == index
      ensures index in old(tracks) ==> t == old(tracks)[index] && tracks == old(tracks)
      ensures index !in old(tracks) ==> fresh(t) && tracks == old(tracks)[index := t]
      ensures HasTracks()
      ensures file == old(file) && currentTrack == old(currentTrack) && lastEndMeasure == old(lastEndMeasure)
    {
      if index in tracks {
        return tracks[index];
      }
      t := new Track(index);
      tracks := tracks[index := t];
    }

    /** `getSelectedTrack`: the track of the current track index, filed on demand. */
    method GetSelectedTrack() returns (t: Track)
      requires Valid()
      modifies this
      ensures Valid()
      ensures t.index == currentTrack && currentTrack in tracks && tracks[currentTrack] == t
      ensures currentTrack in old(tracks) ==> t == old(tracks)[currentTrack] && tracks == old(tracks)
      ensures currentTrack !in old(tracks) ==> fresh(t) && tracks == old(tracks)[currentTrack := t]
      ensures HasTracks()
      ensures currentTrack == old(currentTrack) && file == old(file) && lastEndMeasure == old(lastEndMeasure)
    {
      t := GetTrack(currentTrack);
    }

    /** `toneAdd(tone)`: files the tone's track (found or new) under the tone index. */
    method ToneAdd(toneIndex: int) returns (t: Track)
      requires Valid()
      modifies this
      ensures Valid()
      ensures toneIndex in tracks && tracks[toneIndex] == t && t.index == toneIndex
      ensures tracks.Keys == old(tracks).Keys + {toneIndex}
      ensures forall i :: i in old(tracks) ==> tracks[i] == old(tracks)[i]
      ensures file == old(file) && currentTrack == old(currentTrack) && lastEndMeasure == old(lastEndMeasure)
    {
      t := GetTrack(toneIndex);
      tracks := tracks[toneIndex := t];
    }

    /** `toneRemove(tone)`: unfiles the tone's track; a tone without a track fails at
        the dereference of the missing track. */
    method ToneRemove(toneIndex: int) returns (o: Outcome)
      requires Valid()
      modifies this
      ensures Valid()
      ensures tracks == old(tracks) - {toneIndex}
      ensures o.Fail? <==> toneIndex !in old(tracks)
      ensures o.Fail? ==> o.failure == NullPointer
      ensures file == old(file) && currentTrack == old(currentTrack) && lastEndMeasure == old(lastEndMeasure)
    {
      var removed := if toneIndex in tracks then Some(tracks[toneIndex]) else None;
      tracks := tracks - {toneIndex};
      if removed.None? {
        return Fail(NullPointer);
      }
      o := Pass;
    }
  }
}

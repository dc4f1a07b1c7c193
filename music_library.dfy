/** The `MusicLibrary` class: the catalog, the tag filter, the active
    playlist with its cursor, the shuffle flag, and the flag that says
    whether the stored copy of the catalog (the JSON file) is current. The
    file itself is the field `infoFile`, None while it does not exist. */
module Library {
  import opened Wrappers
  import opened Paths
  import opened Catalogs
  import opened Playlists
  import opened Cursor

  class MusicLibrary {
    /** The tag filter; empty selects every track. */
    var tags: seq<Tag>
    /** Every known track and its tags (`full_library`). */
    var fullLibrary: Catalog
    /** The active playlist (`library`). */
    var library: seq<Path>
    /** The cursor into the playlist (`current_index_song`). */
    var currentIndexSong: int
    var musicDir: string
    /** The audio formats the scan recognises (`music_exts`). */
    const musicExts: set<string>
    /** Whether `infoFile` holds the current catalog (`_json_file_is_actual`). */
    var jsonFileIsActual: bool
    /** Whether the playlist was last shuffled (`is_rnd_flag`). */
    var isRndFlag: bool
    /** The stored catalog (`info_music.json`); None when there is no file. */
    var infoFile: Option<Catalog>

    /** The catalog is a well-formed ordered dictionary, and so is the stored
        one; on a non-empty playlist the cursor is a track or one past the
        last track, where a `next` that read past the end leaves it. */
    ghost predicate Valid()
      reads this
    {
      fullLibrary.Valid() &&
      (infoFile.Some? ==> infoFile.value.Valid()) &&
      (|library| > 0 ==> 0 <= currentIndexSong <= |library|)
    }

    /** The first construction (`__new__`): the class defaults, then
        `read_dir_library` and `do_library`. `stored` is the file found on
        disk, if any. */
    constructor (musicDir: string, stored: Option<Catalog>)
      requires stored.Some? ==> stored.value.Valid()
      ensures Valid()
      ensures this.musicDir == musicDir && musicExts == MusicExts && tags == []
      ensures fullLibrary == if stored.Some? then stored.value else EmptyCatalog
      ensures infoFile == Some(fullLibrary) && jsonFileIsActual
      ensures library == fullLibrary.order && currentIndexSong == 0
      ensures !isRndFlag
    {
      tags := [];
      fullLibrary := EmptyCatalog;
      library := [];
      currentIndexSong := 0;
      this.musicDir := musicDir;
      musicExts := MusicExts;
      jsonFileIsActual := true;
      isRndFlag := false;
      infoFile := stored;
      new;
      ReadDirLibrary();
      assert tags == [];
      DoLibrary();
      SelectAll(fullLibrary.order, fullLibrary.tags);
      assert library == fullLibrary.order;
    }

    /** `_find_music_files`: merge the music files of a directory walk into
        the catalog, and rewrite the stored copy only if a key was added. */
    method FindMusicFiles(walk: seq<WalkFile>)
      requires Valid()
      modifies this`fullLibrary, this`infoFile, this`jsonFileIsActual
      ensures Valid()
      ensures fullLibrary == ScanMerge(old(fullLibrary), walk, musicExts)
      ensures AddsNew(old(fullLibrary), walk, musicExts) ==> infoFile == Some(fullLibrary) && jsonFileIsActual
      ensures !AddsNew(old(fullLibrary), walk, musicExts) ==>
        fullLibrary == old(fullLibrary) && infoFile == old(infoFile) && jsonFileIsActual == old(jsonFileIsActual)
    {
      var newFileExist := false;
      var i := 0;
      while i < |walk|
        invariant 0 <= i <= |walk|
        invariant fullLibrary == ScanMerge(old(fullLibrary), walk[..i], musicExts)
        invariant newFileExist <==> |fullLibrary.order| > |old(fullLibrary).order|
        invariant infoFile == old(infoFile) && jsonFileIsActual == old(jsonFileIsActual)
      {
        var file := walk[i];
        ghost var before := fullLibrary;
        ScanMergeExtends(old(fullLibrary), walk[..i], musicExts);
        ScanMergeSnoc(old(fullLibrary), walk, i, musicExts);
        AddFileCases(before, file, musicExts);
        if IsMusicFile(file.name, musicExts) {
          var relPath := Normalize(file.relPath);
          if relPath !in fullLibrary.tags {
            newFileExist := true;
            fullLibrary := Catalog(fullLibrary.order + [relPath], fullLibrary.tags[relPath := []]);
          }
        }
        assert fullLibrary == AddFile(before, file, musicExts);
        i := i + 1;
      }
      assert walk[..i] == walk;
      ScanMergeValid(old(fullLibrary), walk, musicExts);
      ScanMergeGrows(old(fullLibrary), walk, musicExts);
      if newFileExist {
        CreateInfoFile();
      }
    }

    /** `_create_info_file`: store the catalog; the stored copy is current. */
    method CreateInfoFile()
      requires Valid()
      modifies this`infoFile, this`jsonFileIsActual
      ensures Valid()
      ensures infoFile == Some(fullLibrary) && jsonFileIsActual
    {
      infoFile := Some(fullLibrary);
      jsonFileIsActual := true;
    }

    /** `read_dir_library`: load the stored catalog; without a file, start
        from an empty catalog and store it. Either way the stored copy and
        the catalog agree afterwards. */
    method ReadDirLibrary()
      requires Valid()
      modifies this`fullLibrary, this`infoFile, this`jsonFileIsActual
      ensures Valid()
      ensures fullLibrary == if old(infoFile).Some? then old(infoFile).value else EmptyCatalog
      ensures infoFile == Some(fullLibrary) && jsonFileIsActual
    {
      if infoFile.Some? {
        fullLibrary := infoFile.value;
      } else {
        fullLibrary := EmptyCatalog;
        CreateInfoFile();
      }
      jsonFileIsActual := true;
    }

    /** `change_music_tags`: add or remove one tag of one track; the stored
        copy is out of date afterwards, even when nothing changed. */
    method ChangeMusicTags(nameAudio: Path, tag: Tag, add: bool := true)
      requires Valid()
      modifies this`fullLibrary, this`jsonFileIsActual
      ensures Valid()
      ensures fullLibrary == ChangeTags(old(fullLibrary), nameAudio, tag, add)
      ensures !jsonFileIsActual
    {
      if nameAudio in fullLibrary.tags {
        var songTags := fullLibrary.tags[nameAudio];
        if tag !in songTags && add {
          fullLibrary := fullLibrary.(tags := fullLibrary.tags[nameAudio := songTags + [tag]]);
        } else if tag in songTags && !add {
          fullLibrary := fullLibrary.(tags := fullLibrary.tags[nameAudio := RemoveFirst(songTags, tag)]);
        }
      }
      jsonFileIsActual := false;
    }

    /** `do_library`: rebuild the playlist from the catalog, in catalog
        order, keeping the tracks that meet the tag filter; the cursor goes
        back to the first track. */
    method DoLibrary()
      requires Valid()
      modifies this`library, this`currentIndexSong
      ensures Valid()
      ensures library == Playlist(fullLibrary, tags) && currentIndexSong == 0
    {
      library := [];
      var i := 0;
      while i < |fullLibrary.order|
        invariant 0 <= i <= |fullLibrary.order|
        invariant library == Select(fullLibrary.order[..i], fullLibrary.tags, tags)
      {
        var song := fullLibrary.order[i];
        var songTags := fullLibrary.tags[song];
        if tags == [] || exists t :: t in songTags && t in tags {
          library := library + [song];
        }
        assert fullLibrary.order[..i + 1][..i] == fullLibrary.order[..i];
        i := i + 1;
      }
      assert fullLibrary.order[..i] == fullLibrary.order;
      currentIndexSong := 0;
    }

    /** `do_random`: record the shuffle flag; when set, put the playlist in
        an order chosen at random (here: any order) and go back to the
        first track, otherwise rebuild it in catalog order. */
    method DoRandom(yes: bool := true)
      requires Valid()
      modifies this`isRndFlag, this`library, this`currentIndexSong
      ensures Valid()
      ensures isRndFlag == yes && currentIndexSong == 0
      ensures yes ==> multiset(library) == multiset(old(library))
      ensures !yes ==> library == Playlist(fullLibrary, tags)
    {
      isRndFlag := yes;
      if yes {
        var shuffled: seq<Path> :| multiset(shuffled) == multiset(library);
        library := shuffled;
        currentIndexSong := 0;
      } else {
        DoLibrary();
      }
    }

    /** `next`: step the cursor forward, wrapping to 0 only past the length,
        then read the track there (None: the read raised `IndexError`; the
        cursor has moved all the same). */
    method Next() returns (r: Option<string>)
      requires Valid()
      modifies this`currentIndexSong
      ensures Valid()
      ensures currentIndexSong == NextIndex(old(currentIndexSong), |library|)
      ensures 0 < |library| && old(currentIndexSong) + 1 < |library| ==>
        currentIndexSong == old(currentIndexSong) + 1 && r == Some(Join(musicDir, library[currentIndexSong]))
      ensures |library| > 0 && old(currentIndexSong) == |library| - 1 ==> currentIndexSong == |library| && r == None
      ensures |library| > 0 && old(currentIndexSong) == |library| ==> currentIndexSong == 0 && r == Some(Join(musicDir, library[0]))
      ensures |library| == 0 ==> r == None
    {
      currentIndexSong := currentIndexSong + 1;
      if currentIndexSong > |library| {
        currentIndexSong := 0;
      }
      match PyIndex(library, currentIndexSong)
      case None => r := None;
      case Some(path) => r := Some(Join(musicDir, path));
      NextOutcome(library, old(currentIndexSong));
    }

    /** `before`: step the cursor back, wrapping from -1 to the last track,
        then read the track there (None on an empty playlist). */
    method Before() returns (r: Option<string>)
      requires Valid()
      modifies this`currentIndexSong
      ensures Valid()
      ensures currentIndexSong == BeforeIndex(old(currentIndexSong), |library|)
      ensures 0 < |library| && 0 < old(currentIndexSong) ==>
        currentIndexSong == old(currentIndexSong) - 1 && r == Some(Join(musicDir, library[currentIndexSong]))
      ensures |library| > 0 && old(currentIndexSong) == 0 ==>
        currentIndexSong == |library| - 1 && r == Some(Join(musicDir, library[|library| - 1]))
      ensures |library| == 0 ==> r == None
    {
      currentIndexSong := currentIndexSong - 1;
      if currentIndexSong == -1 {
        currentIndexSong := |library| - 1;
      }
      match PyIndex(library, currentIndexSong)
      case None => r := None;
      case Some(path) => r := Some(Join(musicDir, path));
    }
  }

  /** The first half of the library's own test of the catalog: with no
      stored file, scanning a directory that holds only "test.mp3" and
      reloading gives the catalog {"test.mp3": []}. */
  method ScanScenario()
  {
    var lib := new MusicLibrary("tests", None);
    lib.infoFile := None;
    var song := WalkFile("test.mp3", "test.mp3");
    assert IsMusicFile(song.name, MusicExts) by { MusicFileExamples(); }
    assert Key(song) == "test.mp3" by { NormalizeSpec("test.mp3"); }
    assert [song][..0] == [];
    var scanned := Catalog(["test.mp3"], map["test.mp3" := []]);
    AddFileCases(EmptyCatalog, song, MusicExts);
    assert AddFile(EmptyCatalog, song, MusicExts) == scanned;
    assert ScanMerge(EmptyCatalog, [song], MusicExts) == scanned;
    assert AddsNew(EmptyCatalog, [song], MusicExts);
    lib.FindMusicFiles([song]);
    assert lib.infoFile == Some(Catalog(["test.mp3"], map["test.mp3" := []]));
    lib.ReadDirLibrary();
    assert lib.fullLibrary == Catalog(["test.mp3"], map["test.mp3" := []]);
  }

  /** The second half: tagging "test.mp3" twice stores one copy of the tag,
      and storing, clearing and reloading the catalog brings the tag back. */
  method StoredTagsScenario()
  {
    var lib := new MusicLibrary("tests", Some(Catalog(["test.mp3"], map["test.mp3" := []])));
    lib.ChangeMusicTags("test.mp3", "test_tag", true);
    assert EditTags([], "test_tag", true) == ["test_tag"];
    lib.ChangeMusicTags("test.mp3", "test_tag");
    assert EditTags(["test_tag"], "test_tag", true) == ["test_tag"];
    assert lib.fullLibrary == Catalog(["test.mp3"], map["test.mp3" := ["test_tag"]]);
    lib.CreateInfoFile();
    lib.fullLibrary := EmptyCatalog;
    lib.ReadDirLibrary();
    assert lib.fullLibrary == Catalog(["test.mp3"], map["test.mp3" := ["test_tag"]]);
  }

  /** A playlist of three tracks, from its last track: `next` fails and
      leaves the cursor past the end, the following `next` reads the first
      track, and `before` from there reads the last one. */
  method CursorScenario()
  {
    var lib := new MusicLibrary("/music", Some(Catalog(["a", "b", "c"], map["a" := [], "b" := [], "c" := []])));
    assert lib.library == ["a", "b", "c"];
    lib.currentIndexSong := 2;
    var r := lib.Next();
    assert r == None && lib.currentIndexSong == 3;
    r := lib.Next();
    assert Join("/music", "a") == "/music/a";
    assert r == Some("/music/a") && lib.currentIndexSong == 0;
    r := lib.Before();
    assert Join("/music", "c") == "/music/c";
    assert r == Some("/music/c") && lib.currentIndexSong == 2;
  }
}

/** The catalog (`full_library`): an insertion-ordered dictionary from the
    relative path of every known track to its list of tags, the merge that a
    directory scan performs on it, and the tag edits. */
module Catalogs {
  import opened Wrappers
  import opened Paths

  type Path = string
  type Tag = string

  /** A Python dict with its iteration order: `order` lists the keys in
      insertion order and `tags` gives each key's tag list. */
  datatype Catalog = Catalog(order: seq<Path>, tags: map<Path, seq<Tag>>)
  {
    /** Every key is listed once, and exactly the keys are listed. */
    ghost predicate Valid() {
      NoDuplicates(order) && forall p :: p in tags <==> p in order
    }
  }

  const EmptyCatalog := Catalog([], map[])

  /** One file a directory walk found: its path relative to the music
      directory as the platform spells it, and its bare file name. */
  datatype WalkFile = WalkFile(relPath: string, name: string)

  /** The key a found file is stored under. */
  function Key(f: WalkFile): Path {
    Normalize(f.relPath)
  }

  /** One iteration of the scan: a music file whose key is absent is
      appended with no tags; anything else leaves the catalog as it is. */
  function AddFile(c: Catalog, f: WalkFile, exts: set<string>): Catalog {
    if IsMusicFile(f.name, exts) && Key(f) !in c.tags then
      Catalog(c.order + [Key(f)], c.tags[Key(f) := []])
    else
      c
  }

  /** The two outcomes of one scan step. */
  lemma AddFileCases(c: Catalog, f: WalkFile, exts: set<string>)
    ensures IsMusicFile(f.name, exts) && Key(f) !in c.tags ==> AddFile(c, f, exts) == Catalog(c.order + [Key(f)], c.tags[Key(f) := []])
    ensures !(IsMusicFile(f.name, exts) && Key(f) !in c.tags) ==> AddFile(c, f, exts) == c
  {
  }

  /** The catalog after scanning the files of `walk` in order. */
  function ScanMerge(c: Catalog, walk: seq<WalkFile>, exts: set<string>): Catalog
    decreases |walk|
  {
    if walk == [] then c
    else AddFile(ScanMerge(c, walk[..|walk| - 1], exts), walk[|walk| - 1], exts)
  }

  /** Scanning one more file is one more step. */
  lemma ScanMergeSnoc(c: Catalog, walk: seq<WalkFile>, i: nat, exts: set<string>)
    requires i < |walk|
    ensures ScanMerge(c, walk[..i + 1], exts) == AddFile(ScanMerge(c, walk[..i], exts), walk[i], exts)
  {
    assert walk[..i + 1][..i] == walk[..i];
  }

  /** `p` is the key of some music file of `walk`. */
  ghost predicate Found(walk: seq<WalkFile>, p: Path, exts: set<string>) {
    exists f :: f in walk && IsMusicFile(f.name, exts) && Key(f) == p
  }

  /** Some music file of `walk` has a key the catalog `c` lacks (the flag
      `_new_file_exist` of the scan, read against the catalog before it). */
  ghost predicate AddsNew(c: Catalog, walk: seq<WalkFile>, exts: set<string>)
    decreases |walk|
  {
    walk != [] &&
    (AddsNew(c, walk[..|walk| - 1], exts) ||
     (IsMusicFile(walk[|walk| - 1].name, exts) && Key(walk[|walk| - 1]) !in c.tags))
  }

  lemma {:induction false} ScanMergeValid(c: Catalog, walk: seq<WalkFile>, exts: set<string>)
    requires c.Valid()
    ensures ScanMerge(c, walk, exts).Valid()
    decreases |walk|
  {
    if walk != [] {
      ScanMergeValid(c, walk[..|walk| - 1], exts);
    }
  }

  /** A scan removes nothing: the old keys stay first, in their old order,
      with their old tags. */
  lemma {:induction false} ScanMergeExtends(c: Catalog, walk: seq<WalkFile>, exts: set<string>)
    ensures c.order <= ScanMerge(c, walk, exts).order
    ensures forall p :: p in c.tags ==> p in ScanMerge(c, walk, exts).tags && ScanMerge(c, walk, exts).tags[p] == c.tags[p]
    decreases |walk|
  {
    if walk != [] {
      ScanMergeExtends(c, walk[..|walk| - 1], exts);
    }
  }

  /** After a scan the keys are the old keys and the keys of the music files
      found, nothing else; every key the scan brought in has no tags. */
  lemma {:induction false} ScanMergeKeys(c: Catalog, walk: seq<WalkFile>, exts: set<string>)
    ensures forall p :: p in ScanMerge(c, walk, exts).tags <==> p in c.tags || Found(walk, p, exts)
    ensures forall p :: p in ScanMerge(c, walk, exts).tags && p !in c.tags ==> ScanMerge(c, walk, exts).tags[p] == []
    decreases |walk|
  {
    if walk != [] {
      var w, f := walk[..|walk| - 1], walk[|walk| - 1];
      ScanMergeKeys(c, w, exts);
      assert walk == w + [f];
      forall p ensures Found(walk, p, exts) <==> Found(w, p, exts) || (IsMusicFile(f.name, exts) && Key(f) == p) {
        if Found(walk, p, exts) {
          var g :| g in walk && IsMusicFile(g.name, exts) && Key(g) == p;
          if g != f { assert g in w; }
        }
        if Found(w, p, exts) {
          var g :| g in w && IsMusicFile(g.name, exts) && Key(g) == p;
          assert g in walk;
        }
      }
    }
  }

  /** `AddsNew` on a walk extended by one file. */
  lemma AddsNewSnoc(c: Catalog, w: seq<WalkFile>, f: WalkFile, exts: set<string>)
    ensures AddsNew(c, w + [f], exts) <==> AddsNew(c, w, exts) || (IsMusicFile(f.name, exts) && Key(f) !in c.tags)
  {
    assert (w + [f])[..|w|] == w;
  }

  /** `AddsNew` says that some file of the walk is a music file whose key
      the catalog lacks. */
  lemma {:induction false} AddsNewSpec(c: Catalog, walk: seq<WalkFile>, exts: set<string>)
    ensures AddsNew(c, walk, exts) <==> exists f :: f in walk && IsMusicFile(f.name, exts) && Key(f) !in c.tags
    decreases |walk|
  {
    if walk != [] {
      var w, f := walk[..|walk| - 1], walk[|walk| - 1];
      assert walk == w + [f];
      AddsNewSpec(c, w, exts);
      if exists g :: g in walk && IsMusicFile(g.name, exts) && Key(g) !in c.tags {
        var g :| g in walk && IsMusicFile(g.name, exts) && Key(g) !in c.tags;
        if g != f { assert g in w; }
      }
      if AddsNew(c, w, exts) {
        var g :| g in w && IsMusicFile(g.name, exts) && Key(g) !in c.tags;
        assert g in walk;
      }
    }
  }

  /** A scan that finds no new key leaves the catalog as it is. */
  lemma {:induction false} ScanMergeUnchanged(c: Catalog, walk: seq<WalkFile>, exts: set<string>)
    requires !AddsNew(c, walk, exts)
    ensures ScanMerge(c, walk, exts) == c
    decreases |walk|
  {
    if walk != [] {
      var w, f := walk[..|walk| - 1], walk[|walk| - 1];
      assert walk == w + [f];
      AddsNewSnoc(c, w, f, exts);
      ScanMergeUnchanged(c, w, exts);
    }
  }

  /** A scan that finds a new key lengthens the catalog. */
  lemma {:induction false} ScanMergeLengthens(c: Catalog, walk: seq<WalkFile>, exts: set<string>)
    requires AddsNew(c, walk, exts)
    ensures |ScanMerge(c, walk, exts).order| > |c.order|
    decreases |walk|
  {
    var w, f := walk[..|walk| - 1], walk[|walk| - 1];
    assert walk == w + [f];
    AddsNewSnoc(c, w, f, exts);
    ScanMergeExtends(c, w, exts);
    if AddsNew(c, w, exts) {
      ScanMergeLengthens(c, w, exts);
    } else {
      ScanMergeUnchanged(c, w, exts);
    }
  }

  /** A scan lengthens the catalog exactly when some music file it finds has
      a key the catalog lacks, and otherwise changes nothing. */
  lemma ScanMergeGrows(c: Catalog, walk: seq<WalkFile>, exts: set<string>)
    ensures AddsNew(c, walk, exts) <==> |ScanMerge(c, walk, exts).order| > |c.order|
    ensures !AddsNew(c, walk, exts) ==> ScanMerge(c, walk, exts) == c
  {
    if AddsNew(c, walk, exts) {
      ScanMergeLengthens(c, walk, exts);
    } else {
      ScanMergeUnchanged(c, walk, exts);
    }
  }

  /** Scanning the same files a second time changes nothing and finds
      nothing new, so the second scan does not rewrite the stored copy. */
  lemma ScanMergeIdempotent(c: Catalog, walk: seq<WalkFile>, exts: set<string>)
    ensures !AddsNew(ScanMerge(c, walk, exts), walk, exts)
    ensures ScanMerge(ScanMerge(c, walk, exts), walk, exts) == ScanMerge(c, walk, exts)
  {
    ScanMergeKeys(c, walk, exts);
    AddsNewSpec(ScanMerge(c, walk, exts), walk, exts);
    ScanMergeGrows(ScanMerge(c, walk, exts), walk, exts);
  }

  /** `list.remove(x)`: drops the first occurrence of `x`. */
  function RemoveFirst(s: seq<Tag>, x: Tag): seq<Tag> {
    if s == [] then []
    else if s[0] == x then s[1..]
    else [s[0]] + RemoveFirst(s[1..], x)
  }

  /** Removing splits the list around the first occurrence of `x`; without
      an occurrence nothing changes. */
  lemma {:induction false} RemoveFirstSplit(s: seq<Tag>, x: Tag)
    ensures x !in s ==> RemoveFirst(s, x) == s
    ensures x in s ==> RemoveFirst(s, x) == s[..IndexOf(s, x)] + s[IndexOf(s, x) + 1..]
  {
    if s != [] && s[0] != x {
      var t := s[1..];
      RemoveFirstSplit(t, x);
      if x in s {
        assert x in t;
        var k := IndexOf(t, x);
        assert IndexOf(s, x) == k + 1;
        calc {
          RemoveFirst(s, x);
          [s[0]] + RemoveFirst(t, x);
          [s[0]] + (t[..k] + t[k + 1..]);
          { assert [s[0]] + t[..k] == s[..k + 1]; assert t[k + 1..] == s[k + 2..]; }
          s[..k + 1] + s[k + 2..];
        }
      } else {
        assert s == [s[0]] + t;
      }
    }
  }

  /** Removing takes exactly one copy of `x` out of the list, if there is one. */
  lemma {:induction false} RemoveFirstCount(s: seq<Tag>, x: Tag)
    ensures multiset(RemoveFirst(s, x)) == multiset(s) - multiset{x}
  {
    if s != [] {
      assert s == [s[0]] + s[1..];
      if s[0] != x {
        RemoveFirstCount(s[1..], x);
      }
    }
  }

  /** From a list without duplicates, removing `x` leaves exactly the other
      elements, still without duplicates. */
  lemma {:induction false} RemoveFirstDistinct(s: seq<Tag>, x: Tag)
    requires NoDuplicates(s)
    ensures NoDuplicates(RemoveFirst(s, x))
    ensures forall u :: u in RemoveFirst(s, x) <==> u in s && u != x
  {
    if s != [] {
      var t := s[1..];
      assert s == [s[0]] + t;
      assert NoDuplicates(t);
      assert s[0] !in t;
      if s[0] != x {
        RemoveFirstDistinct(t, x);
      }
    }
  }

  /** The tag list after `change_music_tags(_, tag, add)`: an absent tag is
      appended when adding, a present one removed when removing. */
  function EditTags(ts: seq<Tag>, tag: Tag, add: bool): seq<Tag> {
    if tag !in ts && add then ts + [tag]
    else if tag in ts && !add then RemoveFirst(ts, tag)
    else ts
  }

  /** Adding makes the tag a member, adding one copy when it was absent;
      removing takes one copy out when there is one. */
  lemma EditTagsCount(ts: seq<Tag>, tag: Tag, add: bool)
    ensures add ==> tag in EditTags(ts, tag, add)
    ensures add ==> multiset(EditTags(ts, tag, add)) == multiset(ts) + (if tag in ts then multiset{} else multiset{tag})
    ensures !add ==> multiset(EditTags(ts, tag, add)) == multiset(ts) - multiset{tag}
  {
    RemoveFirstCount(ts, tag);
  }

  /** On a list without duplicates a tag edit is a set insertion or a set
      deletion, and the list keeps no duplicates. */
  lemma EditTagsSetSemantics(ts: seq<Tag>, tag: Tag, add: bool)
    requires NoDuplicates(ts)
    ensures NoDuplicates(EditTags(ts, tag, add))
    ensures forall u :: u in EditTags(ts, tag, add) <==> if add then u in ts || u == tag else u in ts && u != tag
  {
    RemoveFirstDistinct(ts, tag);
  }

  /** Adding the same tag twice leaves a single copy. */
  lemma AddTagTwice(ts: seq<Tag>, tag: Tag)
    ensures EditTags(EditTags(ts, tag, true), tag, true) == EditTags(ts, tag, true)
    ensures multiset(EditTags(EditTags(ts, tag, true), tag, true))[tag] == if tag in ts then multiset(ts)[tag] else 1
  {
  }

  /** The catalog after `change_music_tags(name, tag, add)`. */
  function ChangeTags(c: Catalog, name: Path, tag: Tag, add: bool): Catalog {
    if name in c.tags then c.(tags := c.tags[name := EditTags(c.tags[name], tag, add)])
    else c
  }

  /** A tag edit touches the tag list of `name` only: the keys and their
      order stay, every other entry stays, and an unknown name is a no-op. */
  lemma ChangeTagsFrame(c: Catalog, name: Path, tag: Tag, add: bool)
    ensures ChangeTags(c, name, tag, add).order == c.order
    ensures ChangeTags(c, name, tag, add).tags.Keys == c.tags.Keys
    ensures forall p :: p in c.tags && p != name ==> ChangeTags(c, name, tag, add).tags[p] == c.tags[p]
    ensures name in c.tags ==> ChangeTags(c, name, tag, add).tags[name] == EditTags(c.tags[name], tag, add)
    ensures name !in c.tags ==> ChangeTags(c, name, tag, add) == c
    ensures c.Valid() ==> ChangeTags(c, name, tag, add).Valid()
  {
  }
}

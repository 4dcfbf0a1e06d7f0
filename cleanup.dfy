/** Which files in the podcast output folder are generated content that the cleanup job may
    delete once old enough. */
module Cleanup {
  import opened Text

  /** Project files that are never deleted, by lower-cased name. */
  const KeepExact: set<string> := {
    "google_oauth_client.json",
    "youtube_token.json",
    "youtube_uploader.py",
    "make_podcast_video.py",
    "render_two_host_audio.py",
    "cleanup_old_content.py",
    "automation_setup.md",
    "project_context.md",
    "youtube_upload_config.example.json"
  }

  /** Extensions of generated media, text and metadata. */
  const DeleteExt: set<string> := {".mp3", ".mp4", ".wav", ".m4a", ".png", ".txt", ".md", ".json"}

  /** Name prefixes of the files the podcast pipeline generates. */
  const GeneratedPrefixes: seq<string> := ["daily_podcast_", "podcast_script_", "hot_topics_brief_", "youtube_metadata_"]

  /** `s.rfind(c)` for a one-character `c`: the last index holding `c`, or `-1`. */
  function RFind(s: string, c: char): (i: int)
    ensures -1 <= i < |s|
    ensures i >= 0 ==> s[i] == c
    ensures forall j :: i < j < |s| ==> s[j] != c
  {
    if s == [] then -1
    else if s[|s| - 1] == c then |s| - 1
    else RFind(s[..|s| - 1], c)
  }

  /** `PurePath(name).suffix`: from the last dot on, provided that dot is neither the first
      character nor the last; otherwise empty. */
  function Suffix(name: string): (r: string)
    ensures r == [] || (2 <= |r| < |name| && EndsWith(name, r) && r[0] == '.')
    ensures forall j :: 0 < j < |r| ==> r[j] != '.'
    ensures r == [] <==> RFind(name, '.') <= 0 || RFind(name, '.') == |name| - 1
  {
    var i := RFind(name, '.');
    if 0 < i < |name| - 1 then name[i..] else []
  }

  /** `any(name.startswith(p) for p in prefixes)` */
  predicate StartsWithAny(name: string, prefixes: seq<string>)
    ensures StartsWithAny(name, prefixes) <==>
            exists k :: 0 <= k < |prefixes| && StartsWith(name, prefixes[k])
  {
    prefixes != [] && (StartsWith(name, prefixes[0]) || StartsWithAny(name, prefixes[1..]))
  }

  /** `should_delete(path)` on the path's file name. */
  predicate ShouldDelete(fileName: string)
    ensures ShouldDelete(fileName) ==> Lower(fileName) !in KeepExact
    ensures ShouldDelete(fileName) ==>
      StartsWith(Lower(fileName), "cover") || Lower(Suffix(fileName)) in DeleteExt
  {
    var name := Lower(fileName);
    if name in KeepExact then false
    else if StartsWith(name, "cover") then true
    else Lower(Suffix(fileName)) in DeleteExt && StartsWithAny(name, GeneratedPrefixes)
  }

  /** A kept project file is never deleted, a `cover` file always is, and any other file is
      deleted exactly when it has a generated prefix and a media, text or metadata extension. */
  lemma ShouldDeleteCases(fileName: string)
    ensures Lower(fileName) in KeepExact ==> !ShouldDelete(fileName)
    ensures ShouldDelete(fileName) ==> Lower(fileName) !in KeepExact
    ensures Lower(fileName) !in KeepExact && StartsWith(Lower(fileName), "cover") ==> ShouldDelete(fileName)
    ensures Lower(fileName) !in KeepExact && !StartsWith(Lower(fileName), "cover") ==>
      (ShouldDelete(fileName) <==>
        Lower(Suffix(fileName)) in DeleteExt &&
        exists k :: 0 <= k < |GeneratedPrefixes| && StartsWith(Lower(fileName), GeneratedPrefixes[k]))
  {
  }

  /** Lower-casing keeps exactly the dots where they were. */
  lemma {:induction false} RFindLower(s: string)
    ensures RFind(Lower(s), '.') == RFind(s, '.')
    decreases |s|
  {
    if s != [] {
      assert Lower(s)[..|s| - 1] == Lower(s[..|s| - 1]);
      RFindLower(s[..|s| - 1]);
    }
  }

  /** The suffix of the lower-cased name is the lower-cased suffix. */
  lemma {:induction false} SuffixLower(name: string)
    ensures Suffix(Lower(name)) == Lower(Suffix(name))
  {
    RFindLower(name);
    var i := RFind(name, '.');
    if 0 < i < |name| - 1 {
      assert Lower(name)[i..] == Lower(name[i..]);
    }
  }

  /** The verdict ignores case: two names that agree once lower-cased get the same verdict. */
  lemma {:induction false} CaseInsensitive(a: string, b: string)
    requires Lower(a) == Lower(b)
    ensures ShouldDelete(a) == ShouldDelete(b)
  {
    SuffixLower(a);
    SuffixLower(b);
    LowerIdempotent(Suffix(a));
    LowerIdempotent(Suffix(b));
  }

  /** A file that starts neither with `cover` nor with a generated prefix, in any case, is
      never deleted. */
  lemma OnlyGeneratedFilesAreDeleted(fileName: string)
    requires !StartsWith(Lower(fileName), "cover")
    requires forall k :: 0 <= k < |GeneratedPrefixes| ==> !StartsWith(Lower(fileName), GeneratedPrefixes[k])
    ensures !ShouldDelete(fileName)
  {
  }

  /** A name ending in a dot and more characters, none of them a dot, after at least one
      character has exactly that ending as its suffix. */
  lemma {:induction false} SuffixOfExtension(base: string, ext: string)
    requires base != [] && |ext| >= 2 && ext[0] == '.'
    requires forall j :: 0 < j < |ext| ==> ext[j] != '.'
    ensures Suffix(base + ext) == ext
  {
    var name := base + ext;
    assert name[|base|] == '.';
    assert forall j :: |base| < j < |name| ==> name[j] == ext[j - |base|];
    assert RFind(name, '.') == |base|;
    assert name[|base|..] == ext;
  }

  /** Every listed extension is a dot followed by two or more characters that are not dots,
      and is already lower case. */
  lemma ExtensionShape(ext: string)
    requires ext in DeleteExt
    ensures |ext| >= 3 && ext[0] == '.'
    ensures forall j :: 0 < j < |ext| ==> ext[j] != '.' && !('A' <= ext[j] <= 'Z')
  {
  }

  /** The generated prefixes are lower case. */
  lemma PrefixesAreLowerCase(k: int)
    requires 0 <= k < |GeneratedPrefixes|
    ensures Lower(GeneratedPrefixes[k]) == GeneratedPrefixes[k]
  {
    var p := GeneratedPrefixes[k];
    assert forall i :: 0 <= i < |p| ==> !('A' <= p[i] <= 'Z');
    LowerNoCapitals(p);
  }

  /** No kept project file carries a generated prefix. */
  lemma {:induction false} KeptNamesAreNotGenerated(name: string)
    requires name in KeepExact
    ensures forall k :: 0 <= k < |GeneratedPrefixes| ==> !StartsWith(name, GeneratedPrefixes[k])
  {
    forall k | 0 <= k < |GeneratedPrefixes|
      ensures !StartsWith(name, GeneratedPrefixes[k])
    {
      var p := GeneratedPrefixes[k];
      assert |name| > 8 && (name[0] != p[0] || name[1] != p[1] || name[8] != p[8]);
      assert name[..|p|][0] == name[0] && name[..|p|][1] == name[1] && name[..|p|][8] == name[8];
    }
  }

  /** A lower-case prefix survives lower-casing the whole name. */
  lemma {:induction false} LowerKeepsLowerPrefix(p: string, name: string)
    requires StartsWith(name, p) && Lower(p) == p
    ensures StartsWith(Lower(name), p)
  {
    assert forall i :: 0 <= i < |p| ==> name[i] == name[..|p|][i];
  }

  /** A name made of a non-empty lower-case prefix, any stem and a dotted extension without
      capitals starts with that prefix once lower-cased, and its lower-cased suffix is the
      extension. */
  lemma {:induction false} PrefixedNameShape(p: string, stem: string, ext: string)
    requires p != [] && Lower(p) == p
    requires |ext| >= 2 && ext[0] == '.'
    requires forall j :: 0 < j < |ext| ==> ext[j] != '.' && !('A' <= ext[j] <= 'Z')
    ensures Lower(Suffix(p + stem + ext)) == ext
    ensures StartsWith(Lower(p + stem + ext), p)
  {
    LowerNoCapitals(ext);
    SuffixOfExtension(p + stem, ext);
    assert (p + stem + ext)[..|p|] == p;
    LowerKeepsLowerPrefix(p, p + stem + ext);
  }

  /** A name that starts with a generated prefix, once lower-cased, and has a listed extension
      is deleted: no kept project file has such a prefix. */
  lemma {:induction false} GeneratedPrefixAndExtension(fileName: string, k: int)
    requires 0 <= k < |GeneratedPrefixes| && StartsWith(Lower(fileName), GeneratedPrefixes[k])
    requires Lower(Suffix(fileName)) in DeleteExt
    ensures ShouldDelete(fileName)
  {
    if Lower(fileName) in KeepExact {
      KeptNamesAreNotGenerated(Lower(fileName));
      assert false;
    }
  }

  /** A file the pipeline writes, a generated prefix, any stem and a listed extension, is
      always deleted. */
  lemma {:induction false} GeneratedFilesAreDeleted(k: int, stem: string, ext: string)
    requires 0 <= k < |GeneratedPrefixes| && ext in DeleteExt
    ensures ShouldDelete(GeneratedPrefixes[k] + stem + ext)
  {
    ExtensionShape(ext);
    PrefixesAreLowerCase(k);
    PrefixedNameShape(GeneratedPrefixes[k], stem, ext);
    GeneratedPrefixAndExtension(GeneratedPrefixes[k] + stem + ext, k);
  }
}

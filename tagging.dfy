/**
 * The two name transitions of the review window: `tag_as_bad` puts a `[Bad]`
 * prefix in front of a file's base name unless it is already there, and
 * `remove_bad_tag` drops the first five characters of a name that starts
 * with `[Bad]`. A path is a directory and a base name; both transitions keep
 * the directory.
 */
module Tagging {
  import opened PyText

  const BadTag: string := "[Bad]"

  /** `os.path.join(directory, filename)` split back into its two parts. */
  datatype Path = Path(dir: string, name: string)

  /** `filename.startswith('[Bad]')` */
  predicate IsTagged(name: string) {
    StartsWith(name, BadTag)
  }

  /** The name `tag_as_bad` renames to: `[Bad]` in front, unless the name already starts with it. */
  function TaggedName(name: string): (r: string)
    ensures IsTagged(r)
    ensures EndsWith(r, name) || IsTagged(name)
  {
    if IsTagged(name) then name else BadTag + name
  }

  /** The name `remove_bad_tag` renames to: `filename[5:]` when the name starts with `[Bad]`. */
  function UntaggedName(name: string): (r: string)
    ensures IsTagged(name) ==> BadTag + r == name
    ensures !IsTagged(name) ==> r == name
  {
    if IsTagged(name) then name[|BadTag|..] else name
  }

  /** The path `tag_as_bad` renames to. */
  function TagPath(p: Path): (q: Path)
    ensures q.dir == p.dir && IsTagged(q.name)
  {
    Path(p.dir, TaggedName(p.name))
  }

  /** The path `remove_bad_tag` returns. */
  function UntagPath(p: Path): (q: Path)
    ensures q.dir == p.dir
  {
    Path(p.dir, UntaggedName(p.name))
  }

  /** Tagging twice is tagging once. */
  lemma TagIdempotent(name: string)
    ensures TaggedName(TaggedName(name)) == TaggedName(name)
  {
  }

  /** Removing the tag strips exactly one `[Bad]`: five characters shorter, and the rest kept as it was. */
  lemma UntagStripsOne(name: string)
    requires IsTagged(name)
    ensures |UntaggedName(name)| == |name| - 5
    ensures UntaggedName(name) == name[5..]
    ensures UntaggedName(BadTag + name) == name
  {
    assert (BadTag + name)[..5] == BadTag;
    assert (BadTag + name)[5..] == name;
  }

  /** A doubly tagged name keeps one tag: `[Bad][Bad]x` becomes `[Bad]x`. */
  lemma UntagDoubleTag(x: string)
    ensures UntaggedName(BadTag + BadTag + x) == BadTag + x
    ensures IsTagged(UntaggedName(BadTag + BadTag + x))
  {
    var name := BadTag + BadTag + x;
    assert name[..5] == BadTag;
    assert name[5..] == BadTag + x;
    assert (BadTag + x)[..5] == BadTag;
  }

  /** Tag then preserve gives back the original name of an untagged file. */
  lemma UntagTag(name: string)
    requires !IsTagged(name)
    ensures UntaggedName(TaggedName(name)) == name
  {
    assert (BadTag + name)[..5] == BadTag;
    assert (BadTag + name)[5..] == name;
  }

  /** Preserve then tag gives back a name that carried exactly one tag. */
  lemma TagUntag(name: string)
    requires IsTagged(name) && !IsTagged(name[5..])
    ensures TaggedName(UntaggedName(name)) == name
  {
    assert BadTag + name[5..] == name;
  }

  /** The path transitions keep the directory and act on the name as above. */
  lemma PathRoundTrip(p: Path)
    requires !IsTagged(p.name)
    ensures UntagPath(TagPath(p)) == p
    ensures TagPath(TagPath(p)) == TagPath(p)
  {
    UntagTag(p.name);
  }
}

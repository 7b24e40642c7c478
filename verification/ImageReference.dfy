/** tests/scripts/extract_images.py, image_from_string: splitting an image reference. */
module ImageReference {
  datatype Image = Image(name: string, tag: string, digest: string)

  function LastIndex(s: string, c: char): (i: nat)
    requires c in s
    ensures i < |s| && s[i] == c && c !in s[i + 1..]
  {
    if s[|s| - 1] == c then |s| - 1
    else
      var i := LastIndex(s[..|s| - 1], c);
      assert s[i + 1..] == s[..|s| - 1][i + 1..] + [s[|s| - 1]];
      i
  }

  /** The pieces left and right of the last separator. */
  function RSplit(s: string, c: char): (string, string)
    requires c in s
  {
    var i := LastIndex(s, c);
    (s[..i], s[i + 1..])
  }

  function Normalised(s: string): string {
    if ':' in s then s else s + ":latest"
  }

  function ImageFromString(s: string): Image {
    var ref := Normalised(s);
    assert ':' !in s ==> ref[|s|] == ':';
    if '@' in ref then
      var (name, digest) := RSplit(ref, '@');
      Image(name, "", digest)
    else
      var (name, tag) := RSplit(ref, ':');
      Image(name, tag, "")
  }

  /** A split is determined by the separator missing from its right piece. */
  lemma RSplitIsUnique(left: string, c: char, right: string)
    requires c !in right
    ensures RSplit(left + [c] + right, c) == (left, right)
  {
    var s := left + [c] + right;
    assert s[|left|] == c;
    var i := LastIndex(s, c);
    assert s[|left| + 1..] == right;
    assert forall k {:trigger s[k..]} :: 0 <= k <= |left| ==> s[k..][|left| - k] == c;
    assert forall k :: |left| < k < |s| ==> s[k] == right[k - |left| - 1];
    assert s[..|left|] == left;
  }

  /** Joining the pieces with their separator gives the normalised reference back. */
  lemma PiecesRejoin(s: string)
    ensures var img := ImageFromString(s);
            if '@' in s
            then Normalised(s) == img.name + "@" + img.digest && '@' !in img.digest && img.tag == ""
            else Normalised(s) == img.name + ":" + img.tag && ':' !in img.tag && img.digest == ""
                 && '@' !in img.name + img.tag
  {
    var ref := Normalised(s);
    assert '@' in ref <==> '@' in s;
    assert ':' in ref by {
      assert ':' !in s ==> ref[|s|] == ':';
    }
    var c := if '@' in ref then '@' else ':';
    var i := LastIndex(ref, c);
    assert ref == ref[..i] + [c] + ref[i + 1..];
  }

  /**
    The four kinds of references: without colon and at sign the tag is `latest`; a tag stands
    after the last colon; a digest stands after the last at sign, and a digest without any colon
    in the reference is given `:latest` at its end.
   */
  lemma ReferenceFields(name: string, right: string)
    ensures ':' !in name && '@' !in name ==> ImageFromString(name) == Image(name, "latest", "")
    ensures '@' !in name && '@' !in right && ':' !in right ==> ImageFromString(name + ":" + right) == Image(name, right, "")
    ensures '@' !in right && ':' in name + right ==> ImageFromString(name + "@" + right) == Image(name, "", right)
    ensures '@' !in right && ':' !in name + right ==> ImageFromString(name + "@" + right) == Image(name, "", right + ":latest")
  {
    if ':' !in name && '@' !in name {
      Untagged(name);
    }
    if '@' !in name && '@' !in right && ':' !in right {
      TaggedReference(name, right);
    }
    if '@' !in right {
      Digested(name, right);
    }
  }

  lemma Untagged(name: string)
    requires ':' !in name && '@' !in name
    ensures ImageFromString(name) == Image(name, "latest", "")
  {
    TaggedReference(name, "latest");
    assert name + ":latest" == name + ":" + "latest";
  }

  lemma TaggedReference(name: string, tag: string)
    requires '@' !in name && '@' !in tag && ':' !in tag
    ensures ImageFromString(name + ":" + tag) == Image(name, tag, "")
  {
    assert (name + ":" + tag)[|name|] == ':';
    RSplitIsUnique(name, ':', tag);
  }

  lemma Digested(name: string, right: string)
    requires '@' !in right
    ensures ImageFromString(name + "@" + right) == Image(name, "", if ':' in name + right then right else right + ":latest")
  {
    var digested := name + "@" + right;
    assert digested[|name|] == '@';
    assert ':' in digested <==> ':' in name + right;
    RSplitIsUnique(name, '@', right);
    RSplitIsUnique(name, '@', right + ":latest");
    assert digested + ":latest" == name + ['@'] + (right + ":latest");
  }

  /** The reference that an image's fields stand for. */
  function Render(img: Image): string {
    if img.digest != "" then img.name + "@" + img.digest else img.name + ":" + img.tag
  }

  predicate EndsWith(s: string, c: char) {
    s != "" && s[|s| - 1] == c
  }

  /** The fields alone determine the reference unless it ends in `@`; parsing it again changes nothing. */
  lemma RenderInvertsParsing(s: string)
    ensures Render(ImageFromString(s)) == Normalised(s) <==> !EndsWith(Normalised(s), '@')
    ensures ImageFromString(Normalised(s)) == ImageFromString(s)
  {
    PiecesRejoin(s);
    var ref, img := Normalised(s), ImageFromString(s);
    assert ':' !in s ==> ref[|s|] == ':';
    if '@' in s && img.digest == "" {
      assert ref[|ref| - 1] == '@';
      assert Render(img)[|img.name|] == ':' && ref[|img.name|] == '@';
    } else if '@' in s {
      assert ref[|ref| - 1] == img.digest[|img.digest| - 1];
    }
  }
}

/**
 * A recipe's card on the list page (`RecipeCard`): the tag line, the image
 * source and the link target.
 */
module RecipeCardView {
  import opened Text
  import opened Records

  const NoTags: string := "Delicious recipe"
  const FallbackImagePrefix: string := "https://dummyimage.com/400x300/e0e0e0/555.png&text="
  const RecipeRoute: string := "/recipe/"

  /** A field that is present and not empty, as JavaScript's truthiness sees a string. */
  predicate Truthy(v: Option<string>) {
    v.Some? && v.value != ""
  }

  /** The comma-separated pieces of the tags, each trimmed: one piece more than there are commas. */
  function TagPieces(tags: string): (pieces: seq<string>)
    ensures |pieces| == Occurrences(tags, ',') + 1
  {
    SplitCount(tags, ',');
    StripAll(Split(tags, ','))
  }

  /** The tag line: the trimmed comma-separated pieces joined by ", ", or a default without tags. */
  function FormatTags(tags: Option<string>): (line: string)
    ensures !Truthy(tags) ==> line == NoTags
    ensures Truthy(tags) ==> line == Join(", ", TagPieces(tags.value))
  {
    if Truthy(tags) then Join(", ", TagPieces(tags.value)) else NoTags
  }

  /** The pieces are trimmed and contain no comma. */
  lemma TagPiecesClean(tags: string)
    ensures forall i :: 0 <= i < |TagPieces(tags)| ==>
      ',' !in TagPieces(tags)[i] && Strip(TagPieces(tags)[i]) == TagPieces(tags)[i]
  {
    var parts := Split(tags, ',');
    SplitPiecesFree(tags, ',');
    forall i | 0 <= i < |parts|
      ensures ',' !in TagPieces(tags)[i] && Strip(TagPieces(tags)[i]) == TagPieces(tags)[i]
    {
      StripAllAt(parts, i);
      StripKeepsChars(parts[i]);
      StripIdempotent(parts[i]);
    }
  }

  /** Trimming the pieces of a ", "-join of trimmed pieces gives the pieces back. */
  lemma StripAllSpaced(pieces: seq<string>)
    requires |pieces| >= 1
    requires forall i :: 0 <= i < |pieces| ==> Strip(pieces[i]) == pieces[i]
    ensures StripAll([pieces[0]] + Prefixed(pieces[1..], ' ')) == pieces
  {
    var spaced := [pieces[0]] + Prefixed(pieces[1..], ' ');
    forall i | 0 <= i < |pieces| ensures StripAll(spaced)[i] == pieces[i] {
      StripAllAt(spaced, i);
      if i > 0 {
        assert spaced[i] == " " + pieces[i];
        StripLeadingSpace(pieces[i]);
      }
    }
  }

  /** Splitting a ", "-join of trimmed, comma-free pieces on commas and trimming gives the pieces back. */
  lemma ReformatJoined(pieces: seq<string>)
    requires |pieces| >= 1
    requires forall i :: 0 <= i < |pieces| ==> ',' !in pieces[i] && Strip(pieces[i]) == pieces[i]
    ensures TagPieces(Join(", ", pieces)) == pieces
  {
    var spaced := [pieces[0]] + Prefixed(pieces[1..], ' ');
    JoinSpaced(pieces, ',', ' ');
    forall i | 0 <= i < |spaced| ensures ',' !in spaced[i] {
      if i > 0 {
        assert spaced[i] == [' '] + pieces[i];
      }
    }
    SplitJoin(spaced, ',');
    StripAllSpaced(pieces);
  }

  /** A tag line that is not empty formats to itself. */
  lemma FormatTagsIdempotent(tags: Option<string>)
    requires FormatTags(tags) != ""
    ensures FormatTags(Some(FormatTags(tags))) == FormatTags(tags)
  {
    if Truthy(tags) {
      var pieces := TagPieces(tags.value);
      TagPiecesClean(tags.value);
      ReformatJoined(pieces);
    } else {
      assert Split(NoTags, ',') == [NoTags] by {
        SplitFree(NoTags, ',');
      }
      assert Strip(NoTags) == NoTags;
    }
  }

  /** The image: `image_url` when it is set, otherwise the placeholder carrying the encoded title. */
  function ImageSource(imageUrl: Option<string>, title: string, encode: string -> string): (src: string)
    ensures src != ""
    ensures Truthy(imageUrl) ==> src == imageUrl.value
    ensures !Truthy(imageUrl) ==>
      |src| >= |FallbackImagePrefix| && src[..|FallbackImagePrefix|] == FallbackImagePrefix
      && src[|FallbackImagePrefix|..] == encode(title)
  {
    if Truthy(imageUrl) then imageUrl.value else FallbackImagePrefix + encode(title)
  }

  /** Once `image_url` is set, neither the title nor the encoder affects the image. */
  lemma ImageUrlWins(url: string, t1: string, t2: string, e1: string -> string, e2: string -> string)
    requires url != ""
    ensures ImageSource(Some(url), t1, e1) == ImageSource(Some(url), t2, e2) == url
  {
  }

  /**
   * Without `image_url`, two placeholders are the same exactly when the
   * encoded titles are, so an injective encoder gives different titles
   * different placeholders.
   */
  lemma FallbackDistinguishesTitles(imageUrl: Option<string>, t1: string, t2: string, encode: string -> string)
    requires !Truthy(imageUrl)
    ensures ImageSource(imageUrl, t1, encode) == ImageSource(imageUrl, t2, encode) <==> encode(t1) == encode(t2)
  {
    if ImageSource(imageUrl, t1, encode) == ImageSource(imageUrl, t2, encode) {
      assert encode(t1) == ImageSource(imageUrl, t1, encode)[|FallbackImagePrefix|..];
    }
  }

  /** The link to the recipe's page. */
  function LinkTarget(id: string): (target: string)
    ensures |target| == |RecipeRoute| + |id| && target[..|RecipeRoute|] == RecipeRoute
  {
    RecipeRoute + id
  }

  /** Different recipes link to different pages. */
  lemma LinkTargetInjective(a: string, b: string)
    requires LinkTarget(a) == LinkTarget(b)
    ensures a == b
  {
    assert a == LinkTarget(a)[|RecipeRoute|..];
    assert b == LinkTarget(b)[|RecipeRoute|..];
  }
}

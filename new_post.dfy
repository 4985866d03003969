/** The post composer page: the comma-separated hashtag field, the body
    it sends, the submit button's guard, and the form state. The upload and
    creation requests are parameters: whether each succeeded, and what they
    answered. */
module NewPost {
  import opened Wrappers
  import opened Seqs
  import opened Text

  /** One comma-separated piece, trimmed, with its first `#` removed
      (`tag.trim().replace('#', '')`: a string pattern replaces only the
      first occurrence, wherever it is). */
  function CleanTag(piece: string): string {
    DeleteFirst(Trim(piece), '#')
  }

  /** Only the first `#` goes: a trimmed piece without one is kept whole,
      and one with a `#` loses that character and nothing else. */
  lemma CleanTagRemovesFirstHash(piece: string)
    ensures var p := Trim(piece);
      && ('#' !in p ==> CleanTag(piece) == p)
      && ('#' in p ==> (exists i :: 0 <= i < |p| && p[i] == '#' && '#' !in p[..i]
                                   && CleanTag(piece) == p[..i] + p[i + 1..]))
  {
    var p := Trim(piece);
    assert CleanTag(piece) == DeleteFirst(p, '#');
  }

  /** Every piece cleaned, in order. */
  function CleanAll(pieces: seq<string>): (r: seq<string>)
    ensures |r| == |pieces|
    ensures forall k :: 0 <= k < |pieces| ==> r[k] == CleanTag(pieces[k])
  {
    seq(|pieces|, k requires 0 <= k < |pieces| => CleanTag(pieces[k]))
  }

  predicate NonEmpty(t: string) { t != "" }

  /** `hashtags.split(',').map(...).filter(tag => tag)`. */
  function ParseHashtags(input: string): (r: seq<string>)
    ensures |r| <= |Split(input, ',')|
    ensures forall t :: t in r ==> t != ""
  {
    Filter(CleanAll(Split(input, ',')), NonEmpty)
  }

  /** A cleaned piece list holds exactly the cleanings of the pieces. */
  lemma InCleanAll(pieces: seq<string>, t: string)
    ensures t in CleanAll(pieces) <==> exists k :: 0 <= k < |pieces| && CleanTag(pieces[k]) == t
  {
    var cleaned := CleanAll(pieces);
    if t in cleaned {
      var k :| 0 <= k < |cleaned| && cleaned[k] == t;
      assert CleanTag(pieces[k]) == t;
    }
    if exists k :: 0 <= k < |pieces| && CleanTag(pieces[k]) == t {
      var k :| 0 <= k < |pieces| && CleanTag(pieces[k]) == t;
      assert cleaned[k] == t;
    }
  }

  lemma ParsedMembers(input: string, t: string)
    ensures t in ParseHashtags(input) <==> t in CleanAll(Split(input, ',')) && t != ""
  {
    var cleaned := CleanAll(Split(input, ','));
    var parsed := Filter(cleaned, NonEmpty);
    assert ParseHashtags(input) == parsed;
    assert t in parsed <==> t in cleaned && NonEmpty(t);
  }

  /** The parsed tags are exactly the non-empty cleaned pieces. */
  lemma ParsedAreCleanPieces(input: string, t: string)
    ensures var pieces := Split(input, ',');
      t in ParseHashtags(input) <==> t != "" && exists k :: 0 <= k < |pieces| && CleanTag(pieces[k]) == t
  {
    ParsedMembers(input, t);
    InCleanAll(Split(input, ','), t);
  }

  /** Cleaning distributes over concatenation. */
  lemma CleanAllAppend(a: seq<string>, b: seq<string>)
    ensures CleanAll(a + b) == CleanAll(a) + CleanAll(b)
  {
  }

  /** The parse keeps the order of the input: the tags of two fields joined
      by a comma are the first field's tags followed by the second's. */
  lemma ParseHashtagsConcat(a: string, b: string)
    ensures ParseHashtags(a + [','] + b) == ParseHashtags(a) + ParseHashtags(b)
  {
    SplitConcat(a, b, ',');
    CleanAllAppend(Split(a, ','), Split(b, ','));
    FilterAppend(CleanAll(Split(a, ',')), CleanAll(Split(b, ',')), NonEmpty);
  }

  /** A field without commas gives at most one tag: its own cleaned
      text. */
  lemma ParseSingleField(input: string)
    requires ',' !in input
    ensures ParseHashtags(input) == if CleanTag(input) == "" then [] else [CleanTag(input)]
  {
    SplitWithoutSeparator(input, ',');
    var c := CleanAll([input]);
    assert c == [CleanTag(input)] && c[1..] == [];
  }

  /** Splitting text that has no separator gives the text itself. */
  lemma {:induction false} SplitWithoutSeparator(s: string, sep: char)
    requires sep !in s
    ensures Split(s, sep) == [s]
  {
    if s != [] {
      SplitWithoutSeparator(s[1..], sep);
      assert [s[0]] + s[1..] == s;
    }
  }

  /** The body posted: the content, the uploaded media URL (`null` when
      there is none) and, when the field is not blank, the parsed
      hashtags. */
  datatype PostPayload = PostPayload(content: string, media: Option<string>, hashtags: Option<seq<string>>)

  /** `postData`, with `hashtags` added only when the trimmed field is not
      empty. */
  function BuildPostData(content: string, mediaUrl: Option<string>, hashtagField: string): (p: PostPayload)
    ensures p.content == content && p.media == mediaUrl
    ensures p.hashtags.Some? <==> Trim(hashtagField) != ""
    ensures p.hashtags.Some? ==> p.hashtags.value == ParseHashtags(hashtagField)
  {
    var base := PostPayload(content, mediaUrl, None);
    if Trim(hashtagField) != "" then base.(hashtags := Some(ParseHashtags(hashtagField))) else base
  }

  /** A blank field sends no `hashtags` at all. */
  lemma BlankFieldSendsNoTags(content: string, mediaUrl: Option<string>)
    ensures BuildPostData(content, mediaUrl, " ").hashtags.None?
  {
    assert Trim(" ") == "" by {
      assert TrimStart(" ") == "";
    }
  }

  /** A field holding only a comma is not blank, so it sends `hashtags`,
      and both of its pieces clean to nothing: the list sent is empty. */
  lemma CommaFieldSendsEmptyList(content: string, mediaUrl: Option<string>)
    ensures BuildPostData(content, mediaUrl, ",").hashtags == Some([])
  {
    CommaNotBlank();
    assert ParseHashtags(",") == [] by {
      assert "" + [','] + "" == ",";
      ParseHashtagsConcat("", "");
      ParseSingleField("");
      assert CleanTag("") == "" by {
        assert Trim("") == "";
      }
    }
  }

  lemma CommaNotBlank()
    ensures Trim(",") == ","
  {
    assert TrimStart(",") == ",";
    assert TrimEnd(",") == ",";
  }

  /** `disabled={loading || !content.trim()}`. */
  predicate SubmitDisabled(loading: bool, content: string) {
    loading || Trim(content) == ""
  }

  /** The message shown when a request fails: the server's `error` field
      when it sent a non-empty one, a fixed text otherwise. */
  function FailureMessage(serverError: Option<string>): (m: string)
    ensures m != ""
    ensures serverError.Some? && serverError.value != "" ==> m == serverError.value
  {
    if serverError.Some? && serverError.value != "" then serverError.value else "Failed to create post"
  }

  /** The composer's state. */
  class NewPostForm {
    var content: string
    var hashtags: string
    var media: Option<string>
    var mediaPreview: Option<string>
    var loading: bool
    var error: string

    constructor()
      ensures content == "" && hashtags == "" && media.None? && mediaPreview.None?
      ensures !loading && error == ""
    {
      content, hashtags, media, mediaPreview := "", "", None, None;
      loading, error := false, "";
    }

    /** Whether the submit button is disabled in the current state. */
    function Disabled(): (d: bool)
      reads this
      ensures d <==> loading || Trim(content) == ""
    {
      SubmitDisabled(loading, content)
    }

    /** `removeMedia`: the file and its preview are both cleared. */
    method RemoveMedia()
      modifies this
      ensures media.None? && mediaPreview.None?
      ensures content == old(content) && hashtags == old(hashtags)
      ensures loading == old(loading) && error == old(error)
    {
      media, mediaPreview := None, None;
    }

    /** `handleSubmit`. A chosen file is uploaded first; when the upload
        fails nothing is posted. The body of `BuildPostData` is posted
        with the uploaded URL; when that succeeds the page goes home. Any
        failure shows its message; either way the form ends not loading and
        its fields are kept. */
    method Submit(uploadOk: bool, uploadedUrl: Option<string>, createOk: bool, serverError: Option<string>)
      returns (sent: Option<PostPayload>, navigatedHome: bool)
      modifies this
      ensures old(media).Some? && !uploadOk ==> sent.None?
      ensures old(media).None? || uploadOk ==>
        sent == Some(BuildPostData(old(content), if old(media).Some? then uploadedUrl else None, old(hashtags)))
      ensures navigatedHome <==> sent.Some? && createOk
      ensures navigatedHome ==> error == ""
      ensures !navigatedHome ==> error == FailureMessage(serverError)
      ensures !loading
      ensures content == old(content) && hashtags == old(hashtags)
      ensures media == old(media) && mediaPreview == old(mediaPreview)
    {
      error := "";
      loading := true;
      var mediaUrl: Option<string> := None;
      sent, navigatedHome := None, false;
      if media.Some? {
        if !uploadOk {
          error := FailureMessage(serverError);
          loading := false;
          return;
        }
        mediaUrl := uploadedUrl;
      }
      sent := Some(BuildPostData(content, mediaUrl, hashtags));
      if createOk {
        navigatedHome := true;
      } else {
        error := FailureMessage(serverError);
      }
      loading := false;
    }
  }
}

/**
 * The post dialog of the dashboard: the slug generator (lower-case, drop
 * every character outside `a-z`, `0-9`, space and hyphen, turn runs of white
 * space into one hyphen, collapse runs of hyphens), and the dialog's form
 * state, whose slug follows the title only while a new post is being created.
 */
module PostDialog {
  import opened Text
  import opened Options

  /** Characters the filter `/[^a-z0-9 -]/g` leaves in place. */
  predicate IsKeptChar(c: char)
  {
    ('a' <= c <= 'z') || ('0' <= c <= '9') || c == ' ' || c == '-'
  }

  /** Characters a slug may hold. */
  predicate IsSlugChar(c: char)
  {
    ('a' <= c <= 'z') || ('0' <= c <= '9') || c == '-'
  }

  predicate IsLowerAlnum(c: char)
  {
    ('a' <= c <= 'z') || ('0' <= c <= '9')
  }

  predicate IsHyphen(c: char) { c == '-' }

  /** `generateSlug`: the four replacements in the order the source applies them. */
  function GenerateSlug(title: string): string
  {
    var lowered := ToLower(title);
    var filtered := KeepChars(lowered, IsKeptChar);
    var hyphenated := ReplaceRuns(filtered, IsJsWhitespace, '-');
    ReplaceRuns(hyphenated, IsHyphen, '-')
  }

  /** The shape every generated slug has. */
  predicate IsSlug(s: string)
  {
    && (forall i :: 0 <= i < |s| ==> IsSlugChar(s[i]))
    && (forall i :: 0 <= i < |s| - 1 ==> !(s[i] == '-' && s[i + 1] == '-'))
  }

  /** Every character of a slug is in `a-z`, `0-9` or `-`, and no two hyphens
      are adjacent, whatever the title. */
  lemma GenerateSlugShape(title: string)
    ensures IsSlug(GenerateSlug(title))
  {
    var filtered := KeepChars(ToLower(title), IsKeptChar);
    var hyphenated := ReplaceRuns(filtered, IsJsWhitespace, '-');
    ReplaceRunsChars(filtered, IsJsWhitespace, '-');
    assert forall i :: 0 <= i < |hyphenated| ==> IsSlugChar(hyphenated[i]);
    var slug := ReplaceRuns(hyphenated, IsHyphen, '-');
    ReplaceRunsChars(hyphenated, IsHyphen, '-');
    ReplaceRunsNoDoubleRep(hyphenated, IsHyphen, '-');
  }

  /** A string that already has the shape of a slug is its own slug. */
  lemma {:induction false} GenerateSlugOfSlug(s: string)
    requires IsSlug(s)
    ensures GenerateSlug(s) == s
  {
    ToLowerOfLower(s);
    KeepCharsAll(s, IsKeptChar);
    ReplaceRunsNoRun(s, IsJsWhitespace, '-');
    ReplaceRunsSingleRuns(s, IsHyphen, '-');
  }

  /** Generating a slug from a slug changes nothing. */
  lemma GenerateSlugIdempotent(title: string)
    ensures GenerateSlug(GenerateSlug(title)) == GenerateSlug(title)
  {
    GenerateSlugShape(title);
    GenerateSlugOfSlug(GenerateSlug(title));
  }

  /** The letters and digits of the slug are those of the lower-cased
      title, in the same order: only separators and dropped characters differ. */
  lemma GenerateSlugKeepsAlnum(title: string)
    ensures KeepChars(GenerateSlug(title), IsLowerAlnum) == KeepChars(ToLower(title), IsLowerAlnum)
  {
    var lowered := ToLower(title);
    var filtered := KeepChars(lowered, IsKeptChar);
    var hyphenated := ReplaceRuns(filtered, IsJsWhitespace, '-');
    KeepCharsNarrow(lowered, IsKeptChar, IsLowerAlnum);
    KeepCharsReplaceRuns(filtered, IsJsWhitespace, '-', IsLowerAlnum);
    KeepCharsReplaceRuns(hyphenated, IsHyphen, '-', IsLowerAlnum);
  }

  /** Tabs are dropped by the character filter before white space is
      hyphenated, so they never become hyphens. */
  lemma SlugDropsTab()
    ensures GenerateSlug("a\tb") == "ab"
  {
    assert KeepChars("a\tb", IsKeptChar) == "ab";
    assert ReplaceRuns("ab", IsJsWhitespace, '-') == "ab";
    assert ReplaceRuns("ab", IsHyphen, '-') == "ab";
  }

  /** Edge spaces become edge hyphens: nothing is trimmed. */
  lemma SlugKeepsEdgeHyphens()
    ensures GenerateSlug(" hi ") == "-hi-"
  {
    assert ToLower(" hi ") == " hi ";
    assert KeepChars(" hi ", IsKeptChar) == " hi ";
    EdgeSpacesHyphenated();
    EdgeHyphensKept();
  }

  // Steps of the `SlugKeepsEdgeHyphens` example, proved apart to keep each
  // proof within the resource limit.
  lemma EdgeSpacesHyphenated()
    ensures ReplaceRuns(" hi ", IsJsWhitespace, '-') == "-hi-"
  {
  }

  lemma EdgeHyphensKept()
    ensures ReplaceRuns("-hi-", IsHyphen, '-') == "-hi-"
  {
  }

  /** Punctuation is dropped, capitals are lowered and the space between
      words becomes one hyphen. */
  lemma SlugOfPunctuatedTitle()
    ensures GenerateSlug("A, b") == "a-b"
  {
    PunctuatedTitleFiltered();
    PunctuatedTitleHyphenated();
  }

  // Steps of the `SlugOfPunctuatedTitle` example, proved apart to keep each
  // proof within the resource limit.
  lemma PunctuatedTitleFiltered()
    ensures KeepChars(ToLower("A, b"), IsKeptChar) == "a b"
  {
    assert ToLower("A, b") == "a, b";
    assert KeepChars("a, b", IsKeptChar) == "a b";
  }

  lemma PunctuatedTitleHyphenated()
    ensures ReplaceRuns(ReplaceRuns("a b", IsJsWhitespace, '-'), IsHyphen, '-') == "a-b"
  {
    assert ReplaceRuns("a b", IsJsWhitespace, '-') == "a-b";
    assert ReplaceRuns("a-b", IsHyphen, '-') == "a-b";
  }

  /** The post being edited, as the dialog receives it. */
  datatype Post = Post(id: string, title: string, slug: string, content: string, published: bool, createdAt: string)

  /** What the dialog hands to `onSubmit`: the post without `id` and `createdAt`. */
  datatype PostInput = PostInput(title: string, slug: string, content: string, published: bool)

  /** The dialog's form state. `post` is the post being edited, if any. */
  class Dialog {
    var post: Option<Post>
    var title: string
    var slug: string
    var content: string
    var published: bool

    /** The initial `useState` values, before the reset effect runs. */
    constructor (post: Option<Post>)
      ensures this.post == post
      ensures title == "" && slug == "" && content == "" && !published
    {
      this.post := post;
      title, slug, content, published := "", "", "", false;
    }

    /** The reset effect, run when `post` or `open` changes: copy the post
        being edited, or clear the form for a new one. */
    method Reset(post: Option<Post>)
      modifies this
      ensures this.post == post
      ensures post.Some? ==> (title == post.value.title && slug == post.value.slug
                              && content == post.value.content && published == post.value.published)
      ensures post.None? ==> title == "" && slug == "" && content == "" && !published
    {
      this.post := post;
      match post {
        case Some(p) =>
          title, slug, content, published := p.title, p.slug, p.content, p.published;
        case None =>
          title, slug, content, published := "", "", "", false;
      }
    }

    /** `handleTitleChange`: the slug is derived from the new title only
        while no existing post is being edited. */
    method TitleChange(value: string)
      modifies this`title, this`slug
      ensures title == value
      ensures post.None? ==> slug == GenerateSlug(value) && IsSlug(slug)
      ensures post.Some? ==> slug == old(slug)
    {
      title := value;
      if post.None? {
        slug := GenerateSlug(value);
        GenerateSlugShape(value);
      }
    }

    /** The slug field's own `onChange`: the slug is whatever was typed. */
    method SlugChange(value: string)
      modifies this`slug
      ensures slug == value
    {
      slug := value;
    }

    method ContentChange(value: string)
      modifies this`content
      ensures content == value
    {
      content := value;
    }

    method PublishedChange(value: bool)
      modifies this`published
      ensures published == value
    {
      published := value;
    }

    /** `handleSubmit`: the payload is the current form state. */
    method Submit() returns (payload: PostInput)
      ensures payload.title == title && payload.slug == slug
      ensures payload.content == content && payload.published == published
    {
      payload := PostInput(title, slug, content, published);
    }
  }
}

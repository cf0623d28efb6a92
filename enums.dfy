/** The enumerations the core uses, with the string values the source stores. */
module Enums {
  import opened Wrappers

  /** Lifecycle of a content record (content.service.ts lists the four). */
  datatype ContentStatus = Pending | Processing | Completed | Failed

  /** Kind of content a thread produces (thread.enum.ts). */
  datatype ContentType = BlogPost | ProductDescription | SocialMediaCaption | Article | Other {
    function Value(): string {
      match this
      case BlogPost => "blog_post"
      case ProductDescription => "product_description"
      case SocialMediaCaption => "social_media_caption"
      case Article => "article"
      case Other => "other"
    }
  }

  /** Reads a stored string back as a content type; `None` for anything else. */
  function ParseContentType(s: string): (r: Option<ContentType>)
    ensures r.Some? ==> r.value.Value() == s
  {
    if s == "blog_post" then Some(BlogPost)
    else if s == "product_description" then Some(ProductDescription)
    else if s == "social_media_caption" then Some(SocialMediaCaption)
    else if s == "article" then Some(Article)
    else if s == "other" then Some(Other)
    else None
  }

  /** Every content type is read back from its own string. */
  lemma ContentTypeRoundTrip(t: ContentType)
    ensures ParseContentType(t.Value()) == Some(t)
  {
  }

  /** Thread lifecycle (thread.enum.ts). */
  datatype ThreadStatus = Active | Archived | Deleted {
    function Value(): string {
      match this
      case Active => "active"
      case Archived => "archived"
      case Deleted => "deleted"
    }
  }

  /** Sentiment labels; the content schema's default is `Neutral`. */
  datatype Sentiment = Positive | Negative | Neutral

  /** Role of a user account; registration always creates `User` (the enum's other
    * members, whose file is not part of this model, play no role here). */
  datatype UserType = User
}

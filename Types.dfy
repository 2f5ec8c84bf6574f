/** The records the wizard passes between the user interface and the AI service (types.ts). */
module Types {

  /** A value that may be absent: an optional property or a nullable state cell. */
  datatype Option<+T> = None | Some(value: T)

  /** What an awaited call to the AI service delivers: its value, or a thrown error. */
  datatype Outcome<+T> = Ok(value: T) | Err

  /** A (fictitious) video as listed by the search call; `transcription` is optional. */
  datatype Video = Video(
    id: string,
    title: string,
    channel: string,
    duration: string,
    thumbnail: string,
    views: string,
    published: string,
    transcription: Option<string>)

  datatype ArticleType = Guide | Comparison | Tutorial | List | News

  datatype ArticleLength = Short | Medium | Long | Detailed

  /** The content options the article is generated with. */
  datatype ArticleConfig = ArticleConfig(
    articleType: ArticleType,
    keywords: seq<string>,
    length: ArticleLength,
    includeFAQ: bool,
    includeTips: bool,
    includeRecipes: bool,
    includeEquipment: bool)

  /** The article the generation call returns; its numbers are opaque to the application. */
  datatype GeneratedArticle = GeneratedArticle(
    title: string,
    content: string,
    seoScore: int,
    wordCount: int,
    readingTime: int,
    keywordDensity: string,
    headingCount: int,
    internalLinks: int,
    imageCount: int,
    metaTags: string)
}

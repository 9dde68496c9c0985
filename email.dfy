/**
 * The language choice of email_service.go: the language stored in the
 * request context becomes the two-letter code of the mail template. Go
 * strings are byte strings, so the cut is on bytes.
 */
module Email {
  import opened Outcomes

  /** A context value: a string or a value of any other type. */
  datatype ContextValue = Text(bytes: seq<byte>) | Other

  /** "de", the language used when the context holds no string. */
  const German: seq<byte> := [100, 101]

  /** `getLanguage`: a non-string gives "de"; a string is cut to its first two bytes. */
  function Language(v: ContextValue): (lang: seq<byte>)
    ensures v.Other? ==> lang == German
    ensures v.Text? && |v.bytes| > 2 ==> lang == v.bytes[..2]
    ensures v.Text? && |v.bytes| <= 2 ==> lang == v.bytes
  {
    match v
    case Other => German
    case Text(b) => if |b| > 2 then b[..2] else b
  }

  /** For a string, the language is the longest prefix of at most two bytes; it is empty only for the empty string. */
  lemma LanguagePrefix(b: seq<byte>)
    ensures var lang := Language(Text(b));
      |lang| <= 2 && lang <= b && |lang| == (if |b| < 2 then |b| else 2)
      && (lang == [] <==> b == [])
  {
  }

  /** The code is idempotent: choosing again from the chosen code gives it back. */
  lemma LanguageIdempotent(v: ContextValue)
    ensures Language(Text(Language(v))) == Language(v)
  {
  }
}

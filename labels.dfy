/** The Arabic labels and marker words of the documents, and the separator rule. */
module Labels {

  /** The main-title marker word, `MAIN_TITLE`. */
  const MainTitleWord: string := "\U{0627}\U{0644}\U{0639}\U{0646}\U{0648}\U{0627}\U{0646} \U{0627}\U{0644}\U{0631}\U{0626}\U{064A}\U{0633}\U{064A}"

  /** The sub-title marker word, `SUB_TITLE`. */
  const SubTitleWord: string := "\U{0627}\U{0644}\U{0639}\U{0646}\U{0648}\U{0627}\U{0646} \U{0627}\U{0644}\U{0641}\U{0631}\U{0639}\U{064A}"

  /** The about field, `TAG_ABOUT`. */
  const About: string := "\U{0646}\U{0628}\U{0630}\U{0629}"

  /** The about field with the article. */
  const TheAbout: string := "\U{0627}\U{0644}\U{0646}\U{0628}\U{0630}\U{0629}"

  /** The limits field, `TAG_LIMITS`. */
  const Limits: string := "\U{062D}\U{062F}\U{0648}\U{062F}"

  /** The example field, `TAG_EXAMPLE`. */
  const Example: string := "\U{0645}\U{062B}\U{0627}\U{0644}"

  /** The links field, `TAG_LINKS`. */
  const Links: string := "\U{0631}\U{0648}\U{0627}\U{0628}\U{0637}"

  /** The model marker, `TAG_MODEL`. */
  const Model: string := "\U{0646}\U{0645}\U{0648}\U{0630}\U{062C}"

  /** The key of a bot's model links. */
  const TheModel: string := "\U{0627}\U{0644}\U{0646}\U{0645}\U{0648}\U{0630}\U{062C}"

  /** The plural model key. */
  const TheModels: string := "\U{0627}\U{0644}\U{0646}\U{0645}\U{0627}\U{0630}\U{062C}"

  /** The category used when a bot comes before any sub-title. */
  const Uncategorized: string := "\U{063A}\U{064A}\U{0631} \U{0645}\U{0635}\U{0646}\U{0641}"

  /** `PACKAGE_FALLBACK`. */
  const PackageFallback: string := "\U{0623}\U{062F}\U{0648}\U{0627}\U{062A} \U{0645}\U{062A}\U{0646}\U{0648}\U{0639}\U{0629}"

  /** `CATEGORY_FALLBACK`. */
  const CategoryFallback: string := "\U{0623}\U{062F}\U{0648}\U{0627}\U{062A} \U{062F}\U{0648}\U{0646} \U{062A}\U{0635}\U{0646}\U{064A}\U{0641}"

  /** The description label. */
  const Description: string := "\U{0627}\U{0644}\U{0648}\U{0635}\U{0641}"

  /** Limits with the article. */
  const TheLimits: string := "\U{0627}\U{0644}\U{062D}\U{062F}\U{0648}\U{062F}"

  /** Restrictions. */
  const Restrictions: string := "\U{0627}\U{0644}\U{0642}\U{064A}\U{0648}\U{062F}"

  /** Examples. */
  const Examples: string := "\U{0623}\U{0645}\U{062B}\U{0644}\U{0629}"

  /** Examples with the article. */
  const TheExamples: string := "\U{0627}\U{0644}\U{0623}\U{0645}\U{062B}\U{0644}\U{0629}"

  /** The link. */
  const TheLink: string := "\U{0627}\U{0644}\U{0631}\U{0627}\U{0628}\U{0637}"

  /** A link. */
  const Link: string := "\U{0631}\U{0627}\U{0628}\U{0637}"

  /** The direct link. */
  const DirectLink: string := "\U{0627}\U{0644}\U{0631}\U{0627}\U{0628}\U{0637} \U{0627}\U{0644}\U{0645}\U{0628}\U{0627}\U{0634}\U{0631}"

  /** A key as garbled in the report script (replacement characters and question marks). */
  const Garbled: string := "\U{FFFD}?\U{FFFD}?\U{FFFD}?\U{FFFD}?"

  /** A longer garbled key of the report script. */
  const GarbledLong: string := "\U{FFFD}?\U{FFFD}?\U{FFFD}?\U{FFFD}?\U{FFFD}?\U{FFFD}\U{FFFD}\U{FFFD}?"

  /** The separator line: forty underscores. */
  const Rule: string := "________________________________________"

  /** U+200F RIGHT-TO-LEFT MARK and U+200E LEFT-TO-RIGHT MARK. */
  const RLM: char := '\U{200F}'
  const LRM: char := '\U{200E}'

  /** U+0660 ARABIC-INDIC DIGIT ZERO. */
  const ArabicZero: char := '\U{0660}'
}

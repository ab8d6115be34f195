/** The constant bilingual dictionary of the interface texts: for each
    language, sections of keyed texts. */
module Translations {
  import opened Optional

  /** A node of the dictionary: a text, or a section of named entries. */
  datatype Entry = Leaf(text: string) | Section(entries: map<string, Entry>)

  /** Whether the entry reads as true in a condition: objects always do,
      strings when they are non-empty. */
  predicate Truthy(e: Entry) {
    e.Section? || |e.text| > 0
  }

  const CommonKeys: set<string> := {"appName", "signIn", "signUp", "startLearning", "logout"}

  const LandingKeys: set<string> := {
    "heroTitle", "heroSubtitle", "howItWorks", "step1Title", "step2Title", "step3Title",
    "features", "feature1", "feature2", "feature3", "feature4", "pricing", "free", "pro"
  }

  const EnglishCommon: map<string, Entry> := map[
    "appName" := Leaf("OdrosAi"),
    "signIn" := Leaf("Sign In"),
    "signUp" := Leaf("Sign Up"),
    "startLearning" := Leaf("Start Learning"),
    "logout" := Leaf("Logout")
  ]

  const EnglishLanding: map<string, Entry> := map[
    "heroTitle" := Leaf("Learning made fun with AI 🎉"),
    "heroSubtitle" := Leaf("Upload lessons or ask anything. AI explains it simply."),
    "howItWorks" := Leaf("How It Works"),
    "step1Title" := Leaf("Upload lesson 📘"),
    "step2Title" := Leaf("AI explains 🧠"),
    "step3Title" := Leaf("Practice & quiz 🎯"),
    "features" := Leaf("Features"),
    "feature1" := Leaf("AI explanations"),
    "feature2" := Leaf("Visual learning"),
    "feature3" := Leaf("Interactive Exercises"),
    "feature4" := Leaf("Progress tracking"),
    "pricing" := Leaf("Pricing"),
    "free" := Leaf("Free"),
    "pro" := Leaf("Pro")
  ]

  const English: Entry := Section(map["common" := Section(EnglishCommon), "landing" := Section(EnglishLanding)])

  const ArabicCommon: map<string, Entry> := map[
    "appName" := Leaf("أدرس ذكاء"),
    "signIn" := Leaf("تسجيل الدخول"),
    "signUp" := Leaf("اشترك الآن"),
    "startLearning" := Leaf("ابدأ التعلم"),
    "logout" := Leaf("تسجيل الخروج")
  ]

  const ArabicLanding: map<string, Entry> := map[
    "heroTitle" := Leaf("التعلم أصبح ممتعاً مع الذكاء الاصطناعي 🎉"),
    "heroSubtitle" := Leaf("ارفع الدروس أو اسأل أي سؤال، وسنشرحها لك ببساطة"),
    "howItWorks" := Leaf("كيف يعمل؟"),
    "step1Title" := Leaf("ارفع الدرس 📘"),
    "step2Title" := Leaf("الذكاء الاصطناعي يشرح 🧠"),
    "step3Title" := Leaf("تمارين واختبارات 🎯"),
    "features" := Leaf("المميزات"),
    "feature1" := Leaf("شروحات ذكية"),
    "feature2" := Leaf("تعلم مرئي"),
    "feature3" := Leaf("تمارين تفاعلية"),
    "feature4" := Leaf("تتبع التقدم"),
    "pricing" := Leaf("الأسعار"),
    "free" := Leaf("مجاني"),
    "pro" := Leaf("احترافي")
  ]

  const Arabic: Entry := Section(map["common" := Section(ArabicCommon), "landing" := Section(ArabicLanding)])

  /** `translations[language]`: the tree of a known language, nothing for any
      other saved value. */
  function Dictionary(language: string): (r: Option<Entry>)
    ensures r.Some? <==> language == "en" || language == "ar"
  {
    if language == "en" then Some(English)
    else if language == "ar" then Some(Arabic)
    else None
  }

  /** A section whose keys are exactly `keys` and whose entries are all
      non-empty texts. */
  predicate TextSection(m: map<string, Entry>, keys: set<string>) {
    && m.Keys == keys
    && forall k | k in m :: m[k].Leaf? && |m[k].text| > 0
  }

  /** The shape every language tree has: exactly the sections `common` and
      `landing`, each with its fixed key set, holding only non-empty
      texts. */
  predicate WellShaped(d: Entry) {
    && d.Section?
    && d.entries.Keys == {"common", "landing"}
    && d.entries["common"].Section?
    && TextSection(d.entries["common"].entries, CommonKeys)
    && d.entries["landing"].Section?
    && TextSection(d.entries["landing"].entries, LandingKeys)
  }

  lemma EnglishCommonShape() ensures TextSection(EnglishCommon, CommonKeys) {}
  lemma ArabicCommonShape() ensures TextSection(ArabicCommon, CommonKeys) {}

  lemma EnglishLandingShape() ensures TextSection(EnglishLanding, LandingKeys) {
    EnglishLandingKeys();
    EnglishLandingTexts();
  }
  lemma EnglishLandingKeys() ensures EnglishLanding.Keys == LandingKeys {}
  lemma EnglishLandingTexts() ensures forall k | k in EnglishLanding :: EnglishLanding[k].Leaf? && |EnglishLanding[k].text| > 0 {}
  lemma ArabicLandingShape() ensures TextSection(ArabicLanding, LandingKeys) {
    ArabicLandingKeys();
    ArabicLandingTexts();
  }
  lemma ArabicLandingKeys() ensures ArabicLanding.Keys == LandingKeys {}
  lemma ArabicLandingTexts() ensures forall k | k in ArabicLanding :: ArabicLanding[k].Leaf? && |ArabicLanding[k].text| > 0 {}

  lemma EnglishWellShaped()
    ensures WellShaped(English)
  {
    EnglishCommonShape();
    EnglishLandingShape();
  }

  lemma ArabicWellShaped()
    ensures WellShaped(Arabic)
  {
    ArabicCommonShape();
    ArabicLandingShape();
  }

  /** Both languages have the same shape: a key of one is a key of the
      other, in every section, and every text is non-empty. */
  lemma LanguagesShareShape(language: string)
    requires Dictionary(language).Some?
    ensures WellShaped(Dictionary(language).value)
  {
    if language == "en" { EnglishWellShaped(); } else { ArabicWellShaped(); }
  }
}

/**
  `UserSettingsService`: the settings record, its clamps and toggles. Every
  mutator ends with one `saveSettings()`, counted in `saves`; what it stores
  in the user defaults is not modelled.
 */
module SettingsService {
  import opened Wrappers
  import opened AppModels

  datatype SettingsService = SettingsService(settings: UserSettings, saves: nat)

  /** The fields of `UserSettings`. */
  datatype Field =
    | ThemeField | FontSizeField | LineNumbersField | AutoIndentField
    | WordWrapField | TabSizeField | CollaborationField | OnboardingField

  /** `a` and `b` agree on every field except possibly `f`. */
  predicate SameExcept(a: UserSettings, b: UserSettings, f: Field) {
    && (f == ThemeField || a.theme == b.theme)
    && (f == FontSizeField || a.fontSize == b.fontSize)
    && (f == LineNumbersField || a.showLineNumbers == b.showLineNumbers)
    && (f == AutoIndentField || a.autoIndent == b.autoIndent)
    && (f == WordWrapField || a.wordWrap == b.wordWrap)
    && (f == TabSizeField || a.tabSize == b.tabSize)
    && (f == CollaborationField || a.enableCollaboration == b.enableCollaboration)
    && (f == OnboardingField || a.hasCompletedOnboarding == b.hasCompletedOnboarding)
  }

  /** `init()`: stored settings that decode are used as they are; otherwise the
      defaults are installed and saved once. */
  function Init(loaded: Option<UserSettings>): (s: SettingsService)
    ensures loaded.Some? ==> s.settings == loaded.value && s.saves == 0
    ensures loaded.None? ==> s.settings == DefaultSettings() && s.saves == 1
  {
    if loaded.Some? then SettingsService(loaded.value, 0) else SettingsService(DefaultSettings(), 1)
  }

  function UpdateTheme(s: SettingsService, theme: AppTheme): (s': SettingsService)
    ensures s'.settings.theme == theme && SameExcept(s.settings, s'.settings, ThemeField)
    ensures s'.saves == s.saves + 1
  {
    SettingsService(s.settings.(theme := theme), s.saves + 1)
  }

  /** `updateFontSize`: the size clamped to [10, 24]. */
  function UpdateFontSize(s: SettingsService, size: real): (s': SettingsService)
    ensures 10.0 <= s'.settings.fontSize <= 24.0
    ensures 10.0 <= size <= 24.0 ==> s'.settings.fontSize == size
    ensures size < 10.0 ==> s'.settings.fontSize == 10.0
    ensures size > 24.0 ==> s'.settings.fontSize == 24.0
    ensures SameExcept(s.settings, s'.settings, FontSizeField) && s'.saves == s.saves + 1
  {
    var upper := if size < 24.0 then size else 24.0;
    var clamped := if upper < 10.0 then 10.0 else upper;
    SettingsService(s.settings.(fontSize := clamped), s.saves + 1)
  }

  function ToggleLineNumbers(s: SettingsService): (s': SettingsService)
    ensures s'.settings.showLineNumbers == !s.settings.showLineNumbers
    ensures SameExcept(s.settings, s'.settings, LineNumbersField) && s'.saves == s.saves + 1
  {
    SettingsService(s.settings.(showLineNumbers := !s.settings.showLineNumbers), s.saves + 1)
  }

  function ToggleAutoIndent(s: SettingsService): (s': SettingsService)
    ensures s'.settings.autoIndent == !s.settings.autoIndent
    ensures SameExcept(s.settings, s'.settings, AutoIndentField) && s'.saves == s.saves + 1
  {
    SettingsService(s.settings.(autoIndent := !s.settings.autoIndent), s.saves + 1)
  }

  function ToggleWordWrap(s: SettingsService): (s': SettingsService)
    ensures s'.settings.wordWrap == !s.settings.wordWrap
    ensures SameExcept(s.settings, s'.settings, WordWrapField) && s'.saves == s.saves + 1
  {
    SettingsService(s.settings.(wordWrap := !s.settings.wordWrap), s.saves + 1)
  }

  /** `updateTabSize`: the size clamped to [2, 8]. */
  function UpdateTabSize(s: SettingsService, size: int): (s': SettingsService)
    ensures 2 <= s'.settings.tabSize <= 8
    ensures 2 <= size <= 8 ==> s'.settings.tabSize == size
    ensures size < 2 ==> s'.settings.tabSize == 2
    ensures size > 8 ==> s'.settings.tabSize == 8
    ensures SameExcept(s.settings, s'.settings, TabSizeField) && s'.saves == s.saves + 1
  {
    var upper := if size < 8 then size else 8;
    var clamped := if upper < 2 then 2 else upper;
    SettingsService(s.settings.(tabSize := clamped), s.saves + 1)
  }

  function ToggleCollaboration(s: SettingsService): (s': SettingsService)
    ensures s'.settings.enableCollaboration == !s.settings.enableCollaboration
    ensures SameExcept(s.settings, s'.settings, CollaborationField) && s'.saves == s.saves + 1
  {
    SettingsService(s.settings.(enableCollaboration := !s.settings.enableCollaboration), s.saves + 1)
  }

  function CompleteOnboarding(s: SettingsService): (s': SettingsService)
    ensures s'.settings.hasCompletedOnboarding
    ensures SameExcept(s.settings, s'.settings, OnboardingField) && s'.saves == s.saves + 1
  {
    SettingsService(s.settings.(hasCompletedOnboarding := true), s.saves + 1)
  }

  /** `resetSettings`: back to the defaults, whatever was stored. */
  function ResetSettings(s: SettingsService): (s': SettingsService)
    ensures s'.settings.theme == Dark && s'.settings.fontSize == 14.0 && s'.settings.tabSize == 4
    ensures s'.settings.showLineNumbers && s'.settings.autoIndent && !s'.settings.wordWrap
    ensures s'.settings.enableCollaboration && !s'.settings.hasCompletedOnboarding
    ensures s'.saves == s.saves + 1
  {
    SettingsService(DefaultSettings(), s.saves + 1)
  }

  /** Setting the tab size twice to the same request stores the same value. */
  lemma UpdateTabSizeIdempotent(s: SettingsService, size: int)
    ensures UpdateTabSize(UpdateTabSize(s, size), size).settings == UpdateTabSize(s, size).settings
  {
  }

  /** Clamping a value already stored by `updateTabSize` keeps it. */
  lemma UpdateTabSizeStable(s: SettingsService, size: int)
    ensures var t := UpdateTabSize(s, size).settings.tabSize;
      UpdateTabSize(UpdateTabSize(s, size), t).settings == UpdateTabSize(s, size).settings
  {
  }

  /** Each toggle undoes itself: two toggles restore the settings, with two saves. */
  lemma TogglesUndo(s: SettingsService)
    ensures ToggleLineNumbers(ToggleLineNumbers(s)) == s.(saves := s.saves + 2)
    ensures ToggleAutoIndent(ToggleAutoIndent(s)) == s.(saves := s.saves + 2)
    ensures ToggleWordWrap(ToggleWordWrap(s)) == s.(saves := s.saves + 2)
    ensures ToggleCollaboration(ToggleCollaboration(s)) == s.(saves := s.saves + 2)
  {
  }

  /** Completing onboarding twice leaves the settings as completing it once. */
  lemma CompleteOnboardingIdempotent(s: SettingsService)
    ensures CompleteOnboarding(CompleteOnboarding(s)).settings == CompleteOnboarding(s).settings
  {
  }

  /** Resetting is resetting to `UserSettings.default`, and the defaults are
      what a service with nothing stored starts from. */
  lemma ResetIsInit(s: SettingsService)
    ensures ResetSettings(s).settings == Init(None).settings
  {
  }
}

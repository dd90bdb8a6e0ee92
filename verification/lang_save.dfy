/** frontend/src/langSave.ts: the module-level language holder, as a one-field object. */
module LangSave {
  /** `"en" | "es"`. */
  type Lang = s: string | s == "en" || s == "es" witness "en"

  class LangHolder {
    /** `currentLang`. */
    var currentLang: Lang

    /** The module is loaded with English selected. */
    constructor ()
      ensures currentLang == "en"
    {
      currentLang := "en";
    }

    /** `getLang()`: the stored language, always "en" or "es". */
    function GetLang(): (l: Lang)
      reads this
      ensures l == currentLang
      ensures l == "en" || l == "es"
    {
      currentLang
    }

    /** `setLang(lang)`: the last call wins, whatever was stored before. */
    method SetLang(lang: Lang)
      modifies this
      ensures currentLang == lang
      ensures GetLang() == lang
    {
      currentLang := lang;
    }
  }
}

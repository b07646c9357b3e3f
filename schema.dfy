/** The payload schema: the ordered table of payload categories and their
    dotted field names that both the compiler and the loader walk, the
    serialisation branch each category takes, the theme's colour slots with
    their defaults, and the sub-directories every save ensures. */
module Schema {
  import opened Text

  /** One row of the table: the title shown in the form, the manifest key,
      and the ordered field names. */
  datatype Category = Category(title: string, key: string, fields: seq<string>)

  const PayloadOptions: seq<Category> := [
    Category("App Icon", "app_icon", ["id", "name", "path"]),
    Category("Wallpaper", "wallpaper", ["id", "name", "dark.image", "light.image"]),
    Category("Background Music", "background_music", ["tracks"]),
    Category("Browser Sounds", "browser_sounds", [
      "sounds.CLICK", "sounds.FEATURE_SWITCH_OFF", "sounds.FEATURE_SWITCH_ON",
      "sounds.HOVER", "sounds.HOVER_UP", "sounds.IMPORTANT_CLICK",
      "sounds.LEVEL_UPGRADE", "sounds.LIMITER_OFF", "sounds.LIMITER_ON",
      "sounds.SWITCH_TOGGLE", "sounds.TAB_CLOSE", "sounds.TAB_INSERT",
      "sounds.TAB_SLASH"]),
    Category("Keyboard Sounds", "keyboard_sounds", [
      "sounds.TYPING_BACKSPACE", "sounds.TYPING_ENTER", "sounds.TYPING_LETTER",
      "sounds.TYPING_SPACE"]),
    Category("Fonts", "fonts", ["header.name", "variants.path"]),
    Category("Image Overrides", "image_overrides", [
      "images.sidebar_bookmarks_button", "images.sidebar_gx_booster_button",
      "images.sidebar_limiters_button", "images.sidebar_mods_button",
      "images.sidebar_settings_button", "images.sidebar_shaders_button"]),
    Category("Mobile Image Overrides", "mobile_image_overrides", ["images.start_page_logo"]),
    Category("Page Styles", "page_styles", ["css", "matches"]),
    Category("Shaders", "shaders", ["path"]),
    Category("Splash Screen", "splash_screen", ["path"]),
    Category("Stickers", "stickers", ["images", "preview"]),
    Category("Theme", "theme", [
      "dark.gx_accent.h", "dark.gx_accent.s", "dark.gx_accent.l",
      "dark.gx_secondary_base.h", "dark.gx_secondary_base.s", "dark.gx_secondary_base.l",
      "light.gx_accent.h", "light.gx_accent.s", "light.gx_accent.l",
      "light.gx_secondary_base.h", "light.gx_secondary_base.s", "light.gx_secondary_base.l"])
  ]

  /** The categories that hold one item with many fields. */
  const SingletonKeys: seq<string> := ["app_icon", "wallpaper", "background_music", "splash_screen", "stickers"]

  /** Which branch of the compiler and the loader a category takes. */
  datatype Kind = Singleton | Shaders | Theme | PerField

  function KindOf(key: string): Kind {
    if key in SingletonKeys then Singleton
    else if key == "shaders" then Shaders
    else if key == "theme" then Theme
    else PerField
  }

  /** Singleton fields that name an image to ingest. */
  predicate IsImageField(field: string) {
    field == "dark.image" || field == "light.image"
  }

  /** Singleton fields that hold a comma-separated list. */
  predicate IsListField(field: string) {
    field == "tracks" || field == "sounds" || field == "images"
  }

  /** The sub-directories every save creates under the project folder. */
  const Subdirs: seq<string> := ["app_icon", "css", "font", "icons", "mobile_logo", "music", "shaders", "sounds", "splash", "stickers", "wallpaper"]

  /** Distinct category keys, and within each category distinct fields, at
      least one of them. */
  predicate WellFormed(cats: seq<Category>) {
    && (forall i, j :: 0 <= i < j < |cats| ==> cats[i].key != cats[j].key)
    && (forall i :: 0 <= i < |cats| ==> |cats[i].fields| > 0 && DistinctFields(cats[i].fields))
  }

  predicate DistinctFields(fs: seq<string>) {
    forall i, j :: 0 <= i < j < |fs| ==> fs[i] != fs[j]
  }

  /** The category keys in table order. */
  function KeysOf(cats: seq<Category>): (r: seq<string>)
    ensures |r| == |cats| && forall i :: 0 <= i < |cats| ==> r[i] == cats[i].key
  {
    seq(|cats|, i requires 0 <= i < |cats| => cats[i].key)
  }

  // ---------------------------------------------------------------------------
  // Theme

  /** One colour channel of the theme: its field, where it sits in the
      manifest (`mode.group.channel`), the text the compiler substitutes for
      a blank field and the number the loader substitutes for a missing key. */
  datatype ThemeSlot = ThemeSlot(field: string, mode: string, group: string, channel: string,
                                 textDefault: string, numberDefault: int)

  /** The twelve channels in the order the compiler reads them. */
  const ThemeSlots: seq<ThemeSlot> := [
    ThemeSlot("dark.gx_accent.h", "dark", "gx_accent", "h", "211", 211),
    ThemeSlot("dark.gx_accent.s", "dark", "gx_accent", "s", "100", 100),
    ThemeSlot("dark.gx_accent.l", "dark", "gx_accent", "l", "54", 54),
    ThemeSlot("dark.gx_secondary_base.h", "dark", "gx_secondary_base", "h", "234", 234),
    ThemeSlot("dark.gx_secondary_base.s", "dark", "gx_secondary_base", "s", "35", 35),
    ThemeSlot("dark.gx_secondary_base.l", "dark", "gx_secondary_base", "l", "16", 16),
    ThemeSlot("light.gx_accent.h", "light", "gx_accent", "h", "224", 224),
    ThemeSlot("light.gx_accent.s", "light", "gx_accent", "s", "100", 100),
    ThemeSlot("light.gx_accent.l", "light", "gx_accent", "l", "66", 66),
    ThemeSlot("light.gx_secondary_base.h", "light", "gx_secondary_base", "h", "210", 210),
    ThemeSlot("light.gx_secondary_base.s", "light", "gx_secondary_base", "s", "47", 47),
    ThemeSlot("light.gx_secondary_base.l", "light", "gx_secondary_base", "l", "88", 88)
  ]
}

/** Facts about the constant tables. */
module SchemaFacts {
  import opened Text
  import opened Schema

  /** `x` is among the first `n` elements of `xs`. */
  predicate Occurs(x: string, xs: seq<string>, n: nat)
    requires n <= |xs|
  {
    n > 0 && (xs[n - 1] == x || Occurs(x, xs, n - 1))
  }

  /** The first `n` elements of `xs` are pairwise different; this form lets
      the verifier check a literal list one element at a time. */
  predicate Unique(xs: seq<string>, n: nat)
    requires n <= |xs|
  {
    n == 0 || (!Occurs(xs[n - 1], xs, n - 1) && Unique(xs, n - 1))
  }

  lemma {:induction false} OccursIndex(x: string, xs: seq<string>, n: nat, j: nat)
    requires n <= |xs| && j < n && xs[j] == x
    ensures Occurs(x, xs, n)
  {
    if j < n - 1 {
      OccursIndex(x, xs, n - 1, j);
    }
  }

  lemma {:induction false} UniqueDistinct(xs: seq<string>, n: nat)
    requires n <= |xs| && Unique(xs, n)
    ensures forall i, j :: 0 <= i < j < n ==> xs[i] != xs[j]
  {
    if n > 0 {
      UniqueDistinct(xs, n - 1);
      forall i | 0 <= i < n - 1 ensures xs[i] != xs[n - 1] {
        if xs[i] == xs[n - 1] {
          OccursIndex(xs[n - 1], xs, n - 1, i);
        }
      }
    }
  }

  /** The thirteen category keys are pairwise different. */
  lemma KeyListDistinct()
    ensures DistinctFields(["app_icon", "wallpaper", "background_music", "browser_sounds", "keyboard_sounds", "fonts", "image_overrides", "mobile_image_overrides", "page_styles", "shaders", "splash_screen", "stickers", "theme"])
  {
    var ks := ["app_icon", "wallpaper", "background_music", "browser_sounds", "keyboard_sounds", "fonts", "image_overrides", "mobile_image_overrides", "page_styles", "shaders", "splash_screen", "stickers", "theme"];
    assert Unique(ks, 1);
    assert Unique(ks, 2);
    assert Unique(ks, 3);
    assert Unique(ks, 4);
    assert Unique(ks, 5);
    assert Unique(ks, 6);
    assert Unique(ks, 7);
    assert Unique(ks, 8);
    assert Unique(ks, 9);
    assert Unique(ks, 10);
    assert Unique(ks, 11);
    assert Unique(ks, 12);
    assert Unique(ks, 13);
    UniqueDistinct(ks, 13);
  }

  lemma KeysDistinct()
    ensures |PayloadOptions| == 13
    ensures forall i, j :: 0 <= i < j < |PayloadOptions| ==> PayloadOptions[i].key != PayloadOptions[j].key
  {
    KeyListDistinct();
    assert KeysOf(PayloadOptions) == ["app_icon", "wallpaper", "background_music", "browser_sounds", "keyboard_sounds", "fonts", "image_overrides", "mobile_image_overrides", "page_styles", "shaders", "splash_screen", "stickers", "theme"];
  }

  lemma AppIconFieldsDistinct()
    ensures |PayloadOptions[0].fields| > 0 && DistinctFields(PayloadOptions[0].fields)
  {
    var fs := ["id", "name", "path"];
    assert Unique(fs, 1);
    assert Unique(fs, 2);
    assert Unique(fs, 3);
    UniqueDistinct(fs, 3);
    assert fs == PayloadOptions[0].fields;
  }

  lemma WallpaperFieldsDistinct()
    ensures |PayloadOptions[1].fields| > 0 && DistinctFields(PayloadOptions[1].fields)
  {
    var fs := ["id", "name", "dark.image", "light.image"];
    assert Unique(fs, 1);
    assert Unique(fs, 2);
    assert Unique(fs, 3);
    assert Unique(fs, 4);
    UniqueDistinct(fs, 4);
    assert fs == PayloadOptions[1].fields;
  }

  lemma BackgroundMusicFieldsDistinct()
    ensures |PayloadOptions[2].fields| > 0 && DistinctFields(PayloadOptions[2].fields)
  {
    var fs := ["tracks"];
    assert Unique(fs, 1);
    UniqueDistinct(fs, 1);
    assert fs == PayloadOptions[2].fields;
  }

  lemma BrowserSoundsFieldsDistinct()
    ensures |PayloadOptions[3].fields| > 0 && DistinctFields(PayloadOptions[3].fields)
  {
    var fs := ["sounds.CLICK", "sounds.FEATURE_SWITCH_OFF", "sounds.FEATURE_SWITCH_ON", "sounds.HOVER", "sounds.HOVER_UP", "sounds.IMPORTANT_CLICK", "sounds.LEVEL_UPGRADE", "sounds.LIMITER_OFF", "sounds.LIMITER_ON", "sounds.SWITCH_TOGGLE", "sounds.TAB_CLOSE", "sounds.TAB_INSERT", "sounds.TAB_SLASH"];
    assert Unique(fs, 1);
    assert Unique(fs, 2);
    assert Unique(fs, 3);
    assert Unique(fs, 4);
    assert Unique(fs, 5);
    assert Unique(fs, 6);
    assert Unique(fs, 7);
    assert Unique(fs, 8);
    assert Unique(fs, 9);
    assert Unique(fs, 10);
    assert Unique(fs, 11);
    assert Unique(fs, 12);
    assert Unique(fs, 13);
    UniqueDistinct(fs, 13);
    assert fs == PayloadOptions[3].fields;
  }

  lemma KeyboardSoundsFieldsDistinct()
    ensures |PayloadOptions[4].fields| > 0 && DistinctFields(PayloadOptions[4].fields)
  {
    var fs := ["sounds.TYPING_BACKSPACE", "sounds.TYPING_ENTER", "sounds.TYPING_LETTER", "sounds.TYPING_SPACE"];
    assert Unique(fs, 1);
    assert Unique(fs, 2);
    assert Unique(fs, 3);
    assert Unique(fs, 4);
    UniqueDistinct(fs, 4);
    assert fs == PayloadOptions[4].fields;
  }

  lemma FontsFieldsDistinct()
    ensures |PayloadOptions[5].fields| > 0 && DistinctFields(PayloadOptions[5].fields)
  {
    var fs := ["header.name", "variants.path"];
    assert Unique(fs, 1);
    assert Unique(fs, 2);
    UniqueDistinct(fs, 2);
    assert fs == PayloadOptions[5].fields;
  }

  lemma ImageOverridesFieldsDistinct()
    ensures |PayloadOptions[6].fields| > 0 && DistinctFields(PayloadOptions[6].fields)
  {
    var fs := ["images.sidebar_bookmarks_button", "images.sidebar_gx_booster_button", "images.sidebar_limiters_button", "images.sidebar_mods_button", "images.sidebar_settings_button", "images.sidebar_shaders_button"];
    assert Unique(fs, 1);
    assert Unique(fs, 2);
    assert Unique(fs, 3);
    assert Unique(fs, 4);
    assert Unique(fs, 5);
    assert Unique(fs, 6);
    UniqueDistinct(fs, 6);
    assert fs == PayloadOptions[6].fields;
  }

  lemma MobileImageOverridesFieldsDistinct()
    ensures |PayloadOptions[7].fields| > 0 && DistinctFields(PayloadOptions[7].fields)
  {
    var fs := ["images.start_page_logo"];
    assert Unique(fs, 1);
    UniqueDistinct(fs, 1);
    assert fs == PayloadOptions[7].fields;
  }

  lemma PageStylesFieldsDistinct()
    ensures |PayloadOptions[8].fields| > 0 && DistinctFields(PayloadOptions[8].fields)
  {
    var fs := ["css", "matches"];
    assert Unique(fs, 1);
    assert Unique(fs, 2);
    UniqueDistinct(fs, 2);
    assert fs == PayloadOptions[8].fields;
  }

  lemma ShadersFieldsDistinct()
    ensures |PayloadOptions[9].fields| > 0 && DistinctFields(PayloadOptions[9].fields)
  {
    var fs := ["path"];
    assert Unique(fs, 1);
    UniqueDistinct(fs, 1);
    assert fs == PayloadOptions[9].fields;
  }

  lemma SplashScreenFieldsDistinct()
    ensures |PayloadOptions[10].fields| > 0 && DistinctFields(PayloadOptions[10].fields)
  {
    var fs := ["path"];
    assert Unique(fs, 1);
    UniqueDistinct(fs, 1);
    assert fs == PayloadOptions[10].fields;
  }

  lemma StickersFieldsDistinct()
    ensures |PayloadOptions[11].fields| > 0 && DistinctFields(PayloadOptions[11].fields)
  {
    var fs := ["images", "preview"];
    assert Unique(fs, 1);
    assert Unique(fs, 2);
    UniqueDistinct(fs, 2);
    assert fs == PayloadOptions[11].fields;
  }

  lemma ThemeFieldsDistinct()
    ensures |PayloadOptions[12].fields| > 0 && DistinctFields(PayloadOptions[12].fields)
  {
    var fs := ["dark.gx_accent.h", "dark.gx_accent.s", "dark.gx_accent.l", "dark.gx_secondary_base.h", "dark.gx_secondary_base.s", "dark.gx_secondary_base.l", "light.gx_accent.h", "light.gx_accent.s", "light.gx_accent.l", "light.gx_secondary_base.h", "light.gx_secondary_base.s", "light.gx_secondary_base.l"];
    assert Unique(fs, 1);
    assert Unique(fs, 2);
    assert Unique(fs, 3);
    assert Unique(fs, 4);
    assert Unique(fs, 5);
    assert Unique(fs, 6);
    assert Unique(fs, 7);
    assert Unique(fs, 8);
    assert Unique(fs, 9);
    assert Unique(fs, 10);
    assert Unique(fs, 11);
    assert Unique(fs, 12);
    UniqueDistinct(fs, 12);
    assert fs == PayloadOptions[12].fields;
  }

  /** The table the program uses is well formed. */
  lemma PayloadOptionsWellFormed()
    ensures WellFormed(PayloadOptions)
  {
    KeysDistinct();
    forall c | 0 <= c < |PayloadOptions|
      ensures |PayloadOptions[c].fields| > 0 && DistinctFields(PayloadOptions[c].fields)
    {
      CategoryFieldsDistinct(c);
    }
  }

  /** Each row of the table has distinct fields, at least one. */
  lemma CategoryFieldsDistinct(c: nat)
    requires c < |PayloadOptions|
    ensures |PayloadOptions[c].fields| > 0 && DistinctFields(PayloadOptions[c].fields)
  {
    if c == 0 { AppIconFieldsDistinct(); }
    else if c == 1 { WallpaperFieldsDistinct(); }
    else if c == 2 { BackgroundMusicFieldsDistinct(); }
    else if c == 3 { BrowserSoundsFieldsDistinct(); }
    else if c == 4 { KeyboardSoundsFieldsDistinct(); }
    else if c == 5 { FontsFieldsDistinct(); }
    else if c == 6 { ImageOverridesFieldsDistinct(); }
    else if c == 7 { MobileImageOverridesFieldsDistinct(); }
    else if c == 8 { PageStylesFieldsDistinct(); }
    else if c == 9 { ShadersFieldsDistinct(); }
    else if c == 10 { SplashScreenFieldsDistinct(); }
    else if c == 11 { StickersFieldsDistinct(); }
    else { ThemeFieldsDistinct(); }
  }

  /** Which branch each row of the table takes: the five singletons, the
      shaders, the theme last, and the per-field categories. */
  lemma KindsOfTable()
    ensures forall c :: c in {0, 1, 2, 10, 11} ==> KindOf(PayloadOptions[c].key) == Singleton
    ensures KindOf(PayloadOptions[9].key) == Shaders && KindOf(PayloadOptions[12].key) == Theme
    ensures forall c :: c in {3, 4, 5, 6, 7, 8} ==> KindOf(PayloadOptions[c].key) == PerField
  {
  }

  /** The theme row's fields are the twelve colour slots, in slot order. */
  lemma ThemeFieldsAreSlots()
    ensures |PayloadOptions[12].fields| == |ThemeSlots|
    ensures forall i :: 0 <= i < |ThemeSlots| ==> PayloadOptions[12].fields[i] == ThemeSlots[i].field
  {
  }

  /** The loader's numeric defaults print as the compiler's text defaults. */
  lemma ThemeDefaultsAgree()
    ensures forall i :: 0 <= i < |ThemeSlots| ==> IntToString(ThemeSlots[i].numberDefault) == ThemeSlots[i].textDefault
  {
    forall i | 0 <= i < |ThemeSlots|
      ensures IntToString(ThemeSlots[i].numberDefault) == ThemeSlots[i].textDefault
    {
      SlotDefaultPrints(i);
    }
  }

  /** One slot's numeric default printed in decimal. */
  lemma SlotDefaultPrints(i: nat)
    requires i < |ThemeSlots|
    ensures IntToString(ThemeSlots[i].numberDefault) == ThemeSlots[i].textDefault
  {
    var slot := ThemeSlots[i];
    if i == 0 {
      assert slot.numberDefault == 211 && slot.textDefault == "211";
      assert IntToString(211) == "211";
    } else if i == 1 {
      assert slot.numberDefault == 100 && slot.textDefault == "100";
      assert IntToString(100) == "100";
    } else if i == 2 {
      assert slot.numberDefault == 54 && slot.textDefault == "54";
      assert IntToString(54) == "54";
    } else if i == 3 {
      assert slot.numberDefault == 234 && slot.textDefault == "234";
      assert IntToString(234) == "234";
    } else if i == 4 {
      assert slot.numberDefault == 35 && slot.textDefault == "35";
      assert IntToString(35) == "35";
    } else if i == 5 {
      assert slot.numberDefault == 16 && slot.textDefault == "16";
      assert IntToString(16) == "16";
    } else if i == 6 {
      assert slot.numberDefault == 224 && slot.textDefault == "224";
      assert IntToString(224) == "224";
    } else if i == 7 {
      assert slot.numberDefault == 100 && slot.textDefault == "100";
      assert IntToString(100) == "100";
    } else if i == 8 {
      assert slot.numberDefault == 66 && slot.textDefault == "66";
      assert IntToString(66) == "66";
    } else if i == 9 {
      assert slot.numberDefault == 210 && slot.textDefault == "210";
      assert IntToString(210) == "210";
    } else if i == 10 {
      assert slot.numberDefault == 47 && slot.textDefault == "47";
      assert IntToString(47) == "47";
    } else {
      assert slot.numberDefault == 88 && slot.textDefault == "88";
      assert IntToString(88) == "88";
    }
  }
}

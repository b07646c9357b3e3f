/** What the compiler promises: the item lists of each branch, the theme's
    defaults and parse failures, the payload's keys, and what a save writes
    or leaves alone. */
module CompilerFacts {
  import opened Wrappers
  import opened Text
  import opened Json
  import opened Schema
  import opened Files
  import opened Imaging
  import opened Compiler

  // ---------------------------------------------------------------------------
  // Non-blank fields

  /** The indices of the non-blank texts among the first `k`, in order. */
  function Filled(vals: seq<string>, k: nat): (r: seq<nat>)
    requires k <= |vals|
    ensures |r| <= k && forall i :: 0 <= i < |r| ==> r[i] < k
  {
    if k == 0 then [] else Filled(vals, k - 1) + (if Strip(vals[k - 1]) != "" then [k - 1] else [])
  }

  /** `Filled` lists exactly the non-blank indices, each once, increasing. */
  lemma {:induction false} FilledFacts(vals: seq<string>, k: nat)
    requires k <= |vals|
    ensures forall i :: 0 <= i < |Filled(vals, k)| ==> Filled(vals, k)[i] < k && Strip(vals[Filled(vals, k)[i]]) != ""
    ensures forall i, j :: 0 <= i < j < |Filled(vals, k)| ==> Filled(vals, k)[i] < Filled(vals, k)[j]
    ensures forall j :: 0 <= j < k && Strip(vals[j]) != "" ==> j in Filled(vals, k)
  {
    if k > 0 {
      FilledFacts(vals, k - 1);
    }
  }

  /** An earlier prefix of the texts gives a prefix of `Filled`. */
  lemma {:induction false} FilledGrows(vals: seq<string>, k: nat, m: nat)
    requires k <= m <= |vals|
    ensures |Filled(vals, k)| <= |Filled(vals, m)| && Filled(vals, k) == Filled(vals, m)[..|Filled(vals, k)|]
  {
    if k < m {
      FilledGrows(vals, k, m - 1);
    }
  }

  /** When the first `k` texts are all non-blank, `Filled` is `0, 1, …, k-1`. */
  lemma {:induction false} FilledAllNonBlank(vals: seq<string>, k: nat)
    requires k <= |vals| && forall j :: 0 <= j < k ==> Strip(vals[j]) != ""
    ensures |Filled(vals, k)| == k && forall m :: 0 <= m < k ==> Filled(vals, k)[m] == m
  {
    if k > 0 {
      FilledAllNonBlank(vals, k - 1);
    }
  }

  lemma {:induction false} IncreasingBelow(s: seq<nat>, i: nat, m: nat)
    requires i < |s| && m <= i
    requires forall a, b :: 0 <= a < b < |s| ==> s[a] < s[b]
    ensures m <= s[m] && s[m] + (i - m) <= s[i]
  {
    if m > 0 {
      IncreasingBelow(s, i, m - 1);
    }
    if m < i {
      IncreasingAbove(s, m, i);
    }
  }

  lemma {:induction false} IncreasingAbove(s: seq<nat>, m: nat, i: nat)
    requires m <= i < |s|
    requires forall a, b :: 0 <= a < b < |s| ==> s[a] < s[b]
    ensures s[m] + (i - m) <= s[i]
  {
    if m < i {
      IncreasingAbove(s, m, i - 1);
    }
  }

  /** The i-th stored object belongs to the i-th field exactly when the
      first i+1 fields are all non-blank. */
  lemma FilledAt(vals: seq<string>, i: nat)
    requires i < |vals|
    ensures (i < |Filled(vals, |vals|)| && Filled(vals, |vals|)[i] == i) <==> (forall j :: 0 <= j <= i ==> Strip(vals[j]) != "")
  {
    if forall j :: 0 <= j <= i ==> Strip(vals[j]) != "" {
      FilledFromPrefix(vals, i);
    }
    if i < |Filled(vals, |vals|)| && Filled(vals, |vals|)[i] == i {
      PrefixFromFilled(vals, i);
    }
  }

  lemma FilledFromPrefix(vals: seq<string>, i: nat)
    requires i < |vals| && forall j :: 0 <= j <= i ==> Strip(vals[j]) != ""
    ensures i < |Filled(vals, |vals|)| && Filled(vals, |vals|)[i] == i
  {
    FilledAllNonBlank(vals, i + 1);
    FilledGrows(vals, i + 1, |vals|);
    assert Filled(vals, |vals|)[i] == Filled(vals, i + 1)[i];
  }

  lemma PrefixFromFilled(vals: seq<string>, i: nat)
    requires i < |vals| && i < |Filled(vals, |vals|)| && Filled(vals, |vals|)[i] == i
    ensures forall j :: 0 <= j <= i ==> Strip(vals[j]) != ""
  {
    var fs := Filled(vals, |vals|);
    FilledFacts(vals, |vals|);
    forall j | 0 <= j <= i ensures Strip(vals[j]) != "" {
      IncreasingBelow(fs, i, j);
      assert fs[j] == j;
    }
  }

  // ---------------------------------------------------------------------------
  // Shaders and per-field categories

  /** One shader object per non-blank field, carrying that field's text. */
  lemma {:induction false} ShaderItemsAt(mod: string, vals: seq<string>, k: nat)
    requires k <= |vals|
    ensures |ShaderItems(mod, vals, k)| == |Filled(vals, k)|
    ensures forall i :: 0 <= i < |Filled(vals, k)| ==>
      ShaderItems(mod, vals, k)[i] == JObj([("name", JStr(mod + " Shader")), ("path", JStr(Strip(vals[Filled(vals, k)[i]])))])
  {
    if k > 0 {
      ShaderItemsAt(mod, vals, k - 1);
    }
  }

  /** One single-key object per non-blank field, keyed by the field. */
  lemma {:induction false} FieldItemsAt(fields: seq<string>, vals: seq<string>, k: nat)
    requires k <= |fields| && |vals| == |fields|
    ensures |FieldItems(fields, vals, k)| == |Filled(vals, k)|
    ensures forall i :: 0 <= i < |Filled(vals, k)| ==>
      FieldItems(fields, vals, k)[i] == JObj([(fields[Filled(vals, k)[i]], JStr(Strip(vals[Filled(vals, k)[i]])))])
  {
    if k > 0 {
      FieldItemsAt(fields, vals, k - 1);
      var prev, fs := FieldItems(fields, vals, k - 1), Filled(vals, k - 1);
      if Strip(vals[k - 1]) != "" {
        assert FieldItems(fields, vals, k) == prev + [JObj([(fields[k - 1], JStr(Strip(vals[k - 1])))])];
        assert Filled(vals, k) == fs + [k - 1];
      } else {
        assert FieldItems(fields, vals, k) == prev && Filled(vals, k) == fs;
      }
    }
  }

  // ---------------------------------------------------------------------------
  // Singleton categories

  /** A non-blank field's stored value ends up in the item, and a blank one
      leaves the seed's value (if any); the last assignment of a field wins,
      and fields are distinct. */
  lemma {:induction false} SingletonGetField(mod: string, key: string, sources: map<string, Source>,
                                             fields: seq<string>, vals: seq<string>, k: nat, j: nat)
    requires k <= |fields| && |vals| == |fields| && DistinctFields(fields) && j < k
    ensures Get(SingletonFields(mod, key, sources, fields, vals, k), fields[j]) ==
      if Strip(vals[j]) != "" then Some(SingletonValue(sources, fields[j], Strip(vals[j])))
      else Get(Seed(mod, key), fields[j])
  {
    var prev := SingletonFields(mod, key, sources, fields, vals, k - 1);
    var t := Strip(vals[k - 1]);
    if t != "" {
      GetPut(prev, fields[k - 1], SingletonValue(sources, fields[k - 1], t));
    }
    if j < k - 1 {
      SingletonGetField(mod, key, sources, fields, vals, k - 1, j);
    } else {
      SingletonGetOther(mod, key, sources, fields, vals, k - 1, fields[j]);
    }
  }

  /** A key named by none of the first `k` fields keeps the seed's value. */
  lemma {:induction false} SingletonGetOther(mod: string, key: string, sources: map<string, Source>,
                                             fields: seq<string>, vals: seq<string>, k: nat, x: string)
    requires k <= |fields| && |vals| == |fields| && x !in fields[..k]
    ensures Get(SingletonFields(mod, key, sources, fields, vals, k), x) == Get(Seed(mod, key), x)
  {
    if k > 0 {
      assert fields[..k - 1] == fields[..k][..k - 1];
      var prev := SingletonFields(mod, key, sources, fields, vals, k - 1);
      var t := Strip(vals[k - 1]);
      if t != "" {
        assert fields[k - 1] in fields[..k];
        GetPut(prev, fields[k - 1], SingletonValue(sources, fields[k - 1], t));
      }
      SingletonGetOther(mod, key, sources, fields, vals, k - 1, x);
    }
  }

  /** `id` and `name` always hold non-empty text: the seed's, or a non-blank
      field's that replaced it. */
  lemma {:induction false} SeedKeysStay(mod: string, key: string, sources: map<string, Source>,
                                        fields: seq<string>, vals: seq<string>, k: nat, x: string)
    requires k <= |fields| && |vals| == |fields| && (x == "id" || x == "name")
    ensures var v := Get(SingletonFields(mod, key, sources, fields, vals, k), x);
      v.Some? && v.value.JStr? && v.value.s != ""
  {
    if k == 0 {
      SeedHolds(mod, key, x);
    } else {
      SeedKeysStay(mod, key, sources, fields, vals, k - 1, x);
      var prev := SingletonFields(mod, key, sources, fields, vals, k - 1);
      var t := Strip(vals[k - 1]);
      if t != "" {
        GetPut(prev, fields[k - 1], SingletonValue(sources, fields[k - 1], t));
        if fields[k - 1] == x {
          PlainValue(sources, x, t);
        }
      }
    }
  }

  /** The seed's `id` and `name` are non-empty text. */
  lemma SeedHolds(mod: string, key: string, x: string)
    requires x == "id" || x == "name"
    ensures var v := Get(Seed(mod, key), x);
      v.Some? && v.value.JStr? && v.value.s != ""
  {
    if x == "id" {
      assert Get(Seed(mod, key), x) == Some(JStr("0"));
    } else {
      assert Get(Seed(mod, key), x) == Some(JStr(mod + " " + Capitalize(key)));
      assert (mod + " " + Capitalize(key))[|mod|] == ' ';
    }
  }

  /** `id` and `name` are neither image nor list fields: they store the text. */
  lemma PlainValue(sources: map<string, Source>, x: string, t: string)
    requires x == "id" || x == "name"
    ensures SingletonValue(sources, x, t) == JStr(t)
  {
    assert |x| <= 4;
  }

  lemma {:induction false} GetIndex(kvs: seq<(string, J)>, x: string)
    requires Get(kvs, x).Some?
    ensures exists i :: 0 <= i < |kvs| && kvs[i].0 == x && kvs[i].1 == Get(kvs, x).value
  {
    if kvs[0].0 != x {
      GetIndex(kvs[1..], x);
      var i :| 0 <= i < |kvs[1..]| && kvs[1..][i].0 == x && kvs[1..][i].1 == Get(kvs, x).value;
      assert kvs[i + 1] == kvs[1..][i];
    }
  }

  /** A singleton category always contributes exactly one item, however many
      of its fields are blank, and that item has a non-empty `id` and `name`. */
  lemma SingletonAlwaysOne(cat: Category, vals: seq<string>, mod: string, sources: map<string, Source>)
    requires |vals| == |cat.fields| && KindOf(cat.key) == Singleton
    ensures CategoryItems(cat, vals, mod, sources) == Success([JObj(SingletonFields(mod, cat.key, sources, cat.fields, vals, |vals|))])
    ensures var item := SingletonFields(mod, cat.key, sources, cat.fields, vals, |vals|);
      Get(item, "id").Some? && Truthy(Get(item, "id").value) && Get(item, "name").Some? && Truthy(Get(item, "name").value)
  {
    var item := SingletonFields(mod, cat.key, sources, cat.fields, vals, |vals|);
    SeedKeysStay(mod, cat.key, sources, cat.fields, vals, |vals|, "id");
    SeedKeysStay(mod, cat.key, sources, cat.fields, vals, |vals|, "name");
    GetIndex(item, "id");
  }

  // ---------------------------------------------------------------------------
  // Theme

  /** The twelve defaults are non-empty and stripped. */
  lemma ThemeDefaultsNonEmpty(i: nat)
    requires i < |ThemeSlots|
    ensures ThemeSlots[i].textDefault != "" && IsStripped(ThemeSlots[i].textDefault)
  {
  }

  /** Every colour text is non-empty: a blank field takes its default, and
      any other field its stripped text. */
  lemma ThemeTextsFilled(fields: seq<string>, vals: seq<string>)
    requires |vals| == |fields|
    ensures forall i :: 0 <= i < |ThemeSlots| ==> ThemeTexts(fields, vals)[i] != ""
    ensures forall i :: 0 <= i < |ThemeSlots| ==>
      (Strip(Lookup(fields, vals, ThemeSlots[i].field)) == "" ==> ThemeTexts(fields, vals)[i] == ThemeSlots[i].textDefault)
    ensures forall i :: 0 <= i < |ThemeSlots| ==>
      (Strip(Lookup(fields, vals, ThemeSlots[i].field)) != "" ==> ThemeTexts(fields, vals)[i] == Strip(Lookup(fields, vals, ThemeSlots[i].field)))
  {
    forall i | 0 <= i < |ThemeSlots| ensures ThemeTexts(fields, vals)[i] != "" {
      ThemeDefaultsNonEmpty(i);
    }
  }

  /** `ParseRange` parses every text or names the first that fails. */
  lemma {:induction false} ParseRangeSpec(texts: seq<string>, lo: nat, k: nat)
    requires lo <= k <= |texts| <= |ThemeSlots|
    ensures ParseRange(texts, lo, k).Success? <==> forall i :: lo <= i < k ==> ParseInt(texts[i]).Some?
    ensures ParseRange(texts, lo, k).Success? ==>
      |ParseRange(texts, lo, k).value| == k - lo &&
      forall i :: lo <= i < k ==> ParseRange(texts, lo, k).value[i - lo] == ParseInt(texts[i]).value
    ensures ParseRange(texts, lo, k).Failure? ==>
      exists j :: lo <= j < k && ParseInt(texts[j]).None? && (forall i :: lo <= i < j ==> ParseInt(texts[i]).Some?)
                  && ParseRange(texts, lo, k).error == NotANumber(ThemeSlots[j].field)
  {
    if k > lo {
      ParseRangeSpec(texts, lo, k - 1);
    }
  }

  /** The numbers of a theme whose twelve texts all parse. */
  function ThemeNumbers(texts: seq<string>): (r: seq<int>)
    requires |texts| == |ThemeSlots| && forall i :: 0 <= i < |texts| ==> ParseInt(texts[i]).Some?
    ensures |r| == |texts| && forall i :: 0 <= i < |texts| ==> Some(r[i]) == ParseInt(texts[i])
  {
    seq(|texts|, i requires 0 <= i < |texts| => ParseInt(texts[i]).value)
  }

  /** The theme item with both modes. */
  function ThemeObject(mod: string, ns: seq<int>): seq<(string, J)>
    requires |ns| == |ThemeSlots|
  {
    [("id", JStr("0")), ("name", JStr(mod + " Theme")), ("dark", ModeObject(ns[..6])), ("light", ModeObject(ns[6..]))]
  }

  lemma ModePartParsed(texts: seq<string>, lo: nat)
    requires lo + 6 <= |texts| <= |ThemeSlots| && texts[lo] != ""
    ensures ModePart(texts, lo).Success? <==> forall i :: lo <= i < lo + 6 ==> ParseInt(texts[i]).Some?
    ensures ModePart(texts, lo).Success? ==>
      ParseRange(texts, lo, lo + 6).Success? && |ParseRange(texts, lo, lo + 6).value| == 6 &&
      ModePart(texts, lo).value == Some(ModeObject(ParseRange(texts, lo, lo + 6).value))
    ensures ModePart(texts, lo).Failure? ==> ModePart(texts, lo).error == ParseRange(texts, lo, lo + 6).error
  {
    ParseRangeSpec(texts, lo, lo + 6);
  }

  /** With every text parsed, the theme is the one item with both modes. */
  lemma ThemeSuccess(mod: string, texts: seq<string>)
    requires |texts| == |ThemeSlots| && forall i :: 0 <= i < |ThemeSlots| ==> texts[i] != ""
    requires forall i :: 0 <= i < |ThemeSlots| ==> ParseInt(texts[i]).Some?
    ensures ThemeFrom(mod, texts) == Success([JObj(ThemeObject(mod, ThemeNumbers(texts)))])
  {
    var ns := ThemeNumbers(texts);
    ModeNumbers(texts, 0);
    ModeNumbers(texts, 6);
    assert ns[0..6] == ns[..6] && ns[6..12] == ns[6..];
    AssembleBoth(mod, ns);
  }

  /** A mode whose six texts all parse is the object of their numbers. */
  lemma ModeNumbers(texts: seq<string>, lo: nat)
    requires lo + 6 <= |texts| == |ThemeSlots| && texts[lo] != ""
    requires forall i :: 0 <= i < |ThemeSlots| ==> ParseInt(texts[i]).Some?
    ensures ModePart(texts, lo) == Success(Some(ModeObject(ThemeNumbers(texts)[lo..lo + 6])))
  {
    ModePartParsed(texts, lo);
    ParseRangeSpec(texts, lo, lo + 6);
    assert ParseRange(texts, lo, lo + 6).value == ThemeNumbers(texts)[lo..lo + 6];
  }

  lemma AssembleBoth(mod: string, ns: seq<int>)
    requires |ns| == |ThemeSlots|
    ensures AssembleTheme(mod, Some(ModeObject(ns[..6])), Some(ModeObject(ns[6..]))) == [JObj(ThemeObject(mod, ns))]
  {
    var theme := ThemeObject(mod, ns);
    assert [("id", JStr("0")), ("name", JStr(mod + " Theme"))] + [("dark", ModeObject(ns[..6]))]
      + [("light", ModeObject(ns[6..]))] == theme;
    GetSuffix(theme, 2, "dark");
  }

  /** A text `int()` rejects fails the theme, naming the first such slot. */
  lemma ThemeFailure(mod: string, texts: seq<string>)
    requires |texts| == |ThemeSlots| && forall i :: 0 <= i < |ThemeSlots| ==> texts[i] != ""
    requires exists i :: 0 <= i < |ThemeSlots| && ParseInt(texts[i]).None?
    ensures ThemeFrom(mod, texts).Failure?
    ensures exists j :: 0 <= j < |ThemeSlots| && ParseInt(texts[j]).None? && (forall i :: 0 <= i < j ==> ParseInt(texts[i]).Some?)
                  && ThemeFrom(mod, texts).error == NotANumber(ThemeSlots[j].field)
  {
    ModePartParsed(texts, 0);
    ParseRangeSpec(texts, 0, 6);
    if ModePart(texts, 0).Success? {
      ModePartParsed(texts, 6);
      ParseRangeSpec(texts, 6, 12);
    }
  }

  /** Because no colour text is ever blank, the theme branch either stores
      exactly one item with both modes, holding the twelve parsed numbers, or
      fails on the first text `int()` rejects. */
  lemma ThemeOutcome(mod: string, fields: seq<string>, vals: seq<string>)
    requires |vals| == |fields|
    ensures var texts := ThemeTexts(fields, vals);
      ThemeItems(mod, fields, vals).Success? <==> (forall i :: 0 <= i < |ThemeSlots| ==> ParseInt(texts[i]).Some?)
    ensures var texts := ThemeTexts(fields, vals);
      ThemeItems(mod, fields, vals).Success? ==> ThemeItems(mod, fields, vals).value == [JObj(ThemeObject(mod, ThemeNumbers(texts)))]
    ensures var texts := ThemeTexts(fields, vals);
      ThemeItems(mod, fields, vals).Failure? ==>
        exists j :: 0 <= j < |ThemeSlots| && ParseInt(texts[j]).None? && (forall i :: 0 <= i < j ==> ParseInt(texts[i]).Some?)
                    && ThemeItems(mod, fields, vals).error == NotANumber(ThemeSlots[j].field)
  {
    var texts := ThemeTexts(fields, vals);
    ThemeTextsFilled(fields, vals);
    if forall i :: 0 <= i < |ThemeSlots| ==> ParseInt(texts[i]).Some? {
      ThemeSuccess(mod, texts);
    } else {
      ThemeFailure(mod, texts);
    }
  }
}

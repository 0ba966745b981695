/** The dietary-filter sidebar: the fixed option list, the checkbox toggle
    that builds the new filter list, and the translation key of each
    option's label. */
module FilterSidebar {
  import opened Strings
  import opened Lists

  /** `DIETARY_OPTIONS`. */
  const DietaryOptions: seq<string> := ["Vegetarian", "Vegan", "Gluten-Free", "Keto", "Dairy-Free"]

  /** `handleCheckboxChange`: a selected option is filtered out, an
      unselected one is appended at the end. */
  function Toggle(selected: seq<string>, option: string): (r: seq<string>)
    ensures option in r <==> option !in selected
    ensures forall other :: other != option ==> (other in r <==> other in selected)
    ensures option in selected ==> |r| < |selected|
    ensures option !in selected ==> r == selected + [option]
  {
    if option in selected then
      assert option in multiset(selected);
      Without(selected, option)
    else selected + [option]
  }

  /** `checked={selectedFilters.includes(option)}`. */
  predicate IsChecked(selected: seq<string>, option: string)
    ensures IsChecked(selected, option) <==> exists i :: 0 <= i < |selected| && selected[i] == option
  {
    option in selected
  }

  /** A click flips its own checkbox and no other. */
  lemma ToggleFlipsOnlyItsBox(selected: seq<string>, option: string, other: string)
    ensures IsChecked(Toggle(selected, option), option) == !IsChecked(selected, option)
    ensures other != option ==>
      IsChecked(Toggle(selected, option), other) == IsChecked(selected, other)
  {
  }

  /** Removing keeps the other filters in their order. */
  lemma ToggleRemovesInPlace(before: seq<string>, option: string, after: seq<string>)
    requires option !in before && option !in after
    ensures Toggle(before + [option] + after, option) == before + after
  {
    var s := before + [option] + after;
    assert Toggle(s, option) == Without(s, option) by {
      assert s[|before|] == option;
    }
    assert Without(before + [option], option) == before by {
      WithoutAppend(before, [option], option);
      WithoutAbsent(before, option);
      assert [option][1..] == [];
    }
    assert Without(s, option) == before + after by {
      WithoutAppend(before + [option], after, option);
      WithoutAbsent(after, option);
    }
  }

  /** The toggle never introduces a duplicate. */
  lemma ToggleNoDuplicates(selected: seq<string>, option: string)
    requires NoDuplicates(selected)
    ensures NoDuplicates(Toggle(selected, option))
  {
    if option in selected {
      WithoutNoDuplicates(selected, option);
    } else {
      AppendFreshNoDuplicates(selected, option);
    }
  }

  /** Toggling an unselected option twice restores the list. */
  lemma ToggleTwice(selected: seq<string>, option: string)
    requires option !in selected
    ensures Toggle(Toggle(selected, option), option) == selected
  {
    WithoutAppend(selected, [option], option);
    WithoutAbsent(selected, option);
    assert Without([option], option) == [];
  }

  /** The namespace of the option labels in the locale files. */
  const LabelPrefix: string := "filter.options."

  /** The label's translation key: the option in lower case with its first
      "-" removed. */
  function LabelKey(option: string): (key: string)
    ensures |key| >= |LabelPrefix| && key[..|LabelPrefix|] == LabelPrefix
    ensures '-' !in LowerCase(option) ==> key == LabelPrefix + LowerCase(option)
    ensures '-' in LowerCase(option) ==> |key| == |LabelPrefix| + |option| - 1
  {
    IndexOfChar(LowerCase(option), '-');
    ReplaceFirstShape(LowerCase(option), "-", "");
    LabelPrefix + ReplaceFirst(LowerCase(option), "-", "")
  }

  /** With its first hyphen at index `i` of the lower-cased option, the key
      is the lower-cased option without that one character. */
  lemma LabelKeyOf(option: string, lower: string, i: nat)
    requires LowerCase(option) == lower
    requires i < |lower| && lower[i] == '-' && '-' !in lower[..i]
    ensures LabelKey(option) == LabelPrefix + lower[..i] + lower[i + 1..]
  {
    IndexOfChar(lower, '-');
  }

  /** Without a hyphen the key is just the lower-cased option. */
  lemma LabelKeyNoHyphen(option: string, lower: string)
    requires LowerCase(option) == lower && '-' !in lower
    ensures LabelKey(option) == LabelPrefix + lower
  {
    IndexOfChar(lower, '-');
  }

  lemma GlutenFreeLabelKey()
    ensures LabelKey("Gluten-Free") == LabelPrefix + "glutenfree"
  {
    assert LowerCase("Gluten-Free") == "gluten-free" by {
      var r := LowerCase("Gluten-Free");
      forall i | 0 <= i < 11
        ensures r[i] == "gluten-free"[i]
      {
      }
    }
    LabelKeyOf("Gluten-Free", "gluten-free", 6);
  }

  lemma DairyFreeLabelKey()
    ensures LabelKey("Dairy-Free") == LabelPrefix + "dairyfree"
  {
    assert LowerCase("Dairy-Free") == "dairy-free" by {
      var r := LowerCase("Dairy-Free");
      forall i | 0 <= i < 10
        ensures r[i] == "dairy-free"[i]
      {
      }
    }
    LabelKeyOf("Dairy-Free", "dairy-free", 5);
  }

  lemma VegetarianLabelKey()
    ensures LabelKey("Vegetarian") == LabelPrefix + "vegetarian"
  {
    assert LowerCase("Vegetarian") == "vegetarian" by {
      var r := LowerCase("Vegetarian");
      forall i | 0 <= i < 10
        ensures r[i] == "vegetarian"[i]
      {
      }
    }
    assert '-' !in "vegetarian";
    LabelKeyNoHyphen("Vegetarian", "vegetarian");
  }

  lemma VeganLabelKey()
    ensures LabelKey("Vegan") == LabelPrefix + "vegan"
  {
    assert LowerCase("Vegan") == "vegan" by {
      var r := LowerCase("Vegan");
      forall i | 0 <= i < 5
        ensures r[i] == "vegan"[i]
      {
      }
    }
    assert '-' !in "vegan";
    LabelKeyNoHyphen("Vegan", "vegan");
  }

  lemma KetoLabelKey()
    ensures LabelKey("Keto") == LabelPrefix + "keto"
  {
    assert LowerCase("Keto") == "keto" by {
      var r := LowerCase("Keto");
      forall i | 0 <= i < 4
        ensures r[i] == "keto"[i]
      {
      }
    }
    assert '-' !in "keto";
    LabelKeyNoHyphen("Keto", "keto");
  }

  /** Every dietary option has its label key: the option in lower case,
      without its hyphen. */
  lemma DietaryLabelKeys()
    ensures forall i :: 0 <= i < |DietaryOptions| ==>
      LabelKey(DietaryOptions[i]) == LabelPrefix + ["vegetarian", "vegan", "glutenfree", "keto", "dairyfree"][i]
  {
    var words := ["vegetarian", "vegan", "glutenfree", "keto", "dairyfree"];
    forall i | 0 <= i < |DietaryOptions|
      ensures LabelKey(DietaryOptions[i]) == LabelPrefix + words[i]
    {
      if i == 0 {
        VegetarianLabelKey();
      } else if i == 1 {
        VeganLabelKey();
      } else if i == 2 {
        GlutenFreeLabelKey();
      } else if i == 3 {
        KetoLabelKey();
      } else {
        DairyFreeLabelKey();
      }
    }
  }
}

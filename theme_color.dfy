/**
 * `useThemeColor(props, colorName)`: a colour given in `props` for the current theme's id
 * wins; otherwise the colour comes from the current theme.
 */
module ThemeColor {
  import opened Wrappers
  import opened ThemeTree
  import Themes

  /** A usable override: present and not the empty string, which JavaScript treats as false. */
  predicate HasOverride(props: map<string, string>, id: string) {
    id in props && props[id] != ""
  }

  /**
   * The colour a component gets under the current theme: the override for that theme's
   * id, or the theme's own entry `colorName` (None when the theme has no such entry).
   */
  function UseThemeColor(props: map<string, string>, current: Themes.Theme, colorName: string): (r: Option<Tree>)
    ensures HasOverride(props, current.id) ==> r == Some(Leaf(props[current.id]))
    ensures !HasOverride(props, current.id) && current.colors.Node? ==>
      r == Lookup(current.colors.entries, colorName)
  {
    if HasOverride(props, current.id) then Some(Leaf(props[current.id]))
    else
      assert [colorName][1..] == [];
      assert current.colors.Node? && Lookup(current.colors.entries, colorName).Some? ==>
        Get(current.colors, [colorName]) == Get(Lookup(current.colors.entries, colorName).value, []);
      Get(current.colors, [colorName])
  }

  /** A usable override answers every colour name alike, whatever the theme holds. */
  lemma OverrideWinsForEveryName(props: map<string, string>, current: Themes.Theme, other: Themes.Theme, a: string, b: string)
    requires HasOverride(props, current.id) && other.id == current.id
    ensures UseThemeColor(props, current, a) == UseThemeColor(props, other, b)
    ensures UseThemeColor(props, current, a).Some? && UseThemeColor(props, current, a).value.Leaf?
  {
  }

  /**
   * Without a usable override the hook answers exactly for the theme's own colour names,
   * and then with a property the theme's colours hold under that name.
   */
  lemma ThemeEntryWithoutOverride(props: map<string, string>, current: Themes.Theme, colorName: string)
    requires !HasOverride(props, current.id) && current.colors.Node?
    ensures UseThemeColor(props, current, colorName).Some? <==> colorName in Keys(current.colors.entries)
    ensures UseThemeColor(props, current, colorName).Some? ==>
      Entry(colorName, UseThemeColor(props, current, colorName).value) in current.colors.entries
  {
    LookupFound(current.colors.entries, colorName);
  }

  /** Overrides for other themes' ids never change the result. */
  lemma OtherOverridesIgnored(props: map<string, string>, other: map<string, string>, current: Themes.Theme, colorName: string)
    requires (current.id in props) == (current.id in other)
    requires current.id in props ==> props[current.id] == other[current.id]
    ensures UseThemeColor(props, current, colorName) == UseThemeColor(other, current, colorName)
  {
  }

  /** An empty override behaves as no override at all. */
  lemma EmptyOverrideIsAbsent(props: map<string, string>, current: Themes.Theme, colorName: string)
    ensures UseThemeColor(props[current.id := ""], current, colorName)
         == UseThemeColor(props - {current.id}, current, colorName)
         == Get(current.colors, [colorName])
  {
  }

  /**
   * With no override, the colour comes from the theme `getThemeById` selects: for an id
   * that is not in the table, from `default-dark`.
   */
  lemma UnknownThemeUsesDefaultDark(props: map<string, string>, id: string, colorName: string)
    requires id !in Themes.Ids(Themes.ThemeTable())
    requires !HasOverride(props, "default-dark")
    ensures UseThemeColor(props, Themes.GetThemeById(id), colorName)
         == Get(Themes.DefaultDarkColors(), [colorName])
  {
    Themes.GetThemeByUnknownId(id);
  }
}

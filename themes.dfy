/**
 * The built-in themes and `getThemeById`, which looks a theme up by its id and falls
 * back to the first theme of the table.
 */
module Themes {
  import opened Wrappers
  import opened ThemeTree

  /** A built-in theme: its id, display name and colour tree. */
  datatype Theme = Theme(id: string, name: string, colors: Tree)

  /** The `themes` table, in its source order. */
  function ThemeTable(): seq<Theme> {
    [
      Theme("default-dark", "Default Dark", DefaultDarkColors()),
      Theme("blue-gold", "Blue & Gold", BlueGoldColors()),
      Theme("default-light", "Default Light", DefaultLightColors()),
      Theme("odyssey-dark", "Odyssey Dark", OdysseyDarkColors())
    ]
  }

  /** The colours of the `default-dark` theme. */
  function DefaultDarkColors(): Tree {
    Node([
      Entry("primary", Leaf("#1E90FF")),
      Entry("secondary", Leaf("#000000")),
      Entry("background", Leaf("#000000")),
      Entry("surface", Leaf("#000000")),
      Entry("surfaceAlt", Leaf("#000000")),
      Entry("text", Leaf("#FFFFFF")),
      Entry("textSecondary", Leaf("#AAAAAA")),
      Entry("textInverse", Leaf("#000000")),
      Entry("priceText", Leaf("#FFFFFF")),
      Entry("statNumber", Leaf("#FFFFFF")),
      Entry("headerText", Leaf("#FFFFFF")),
      Entry("button", Node([
        Entry("primary", Node([
          Entry("background", Leaf("#000000")),
          Entry("text", Leaf("#FFFFFF")),
          Entry("hover", Leaf("#1A1A1A")),
          Entry("active", Leaf("#333333"))
        ])),
        Entry("secondary", Node([
          Entry("background", Leaf("#000000")),
          Entry("text", Leaf("#FFFFFF")),
          Entry("hover", Leaf("#1A1A1A")),
          Entry("active", Leaf("#333333"))
        ])),
        Entry("cta", Node([
          Entry("background", Leaf("#000000")),
          Entry("text", Leaf("#FFFFFF")),
          Entry("hover", Leaf("#1A1A1A")),
          Entry("active", Leaf("#333333"))
        ]))
      ])),
      Entry("border", Leaf("#333333")),
      Entry("shadow", Leaf("#000000")),
      Entry("overlay", Leaf("rgba(0,0,0,0.5)")),
      Entry("error", Leaf("#FF5252")),
      Entry("success", Leaf("#69F0AE")),
      Entry("warning", Leaf("#FFB74D")),
      Entry("info", Leaf("#64B5F6")),
      Entry("card", Node([
        Entry("background", Leaf("#1E1E1E")),
        Entry("border", Leaf("#333333")),
        Entry("shadow", Leaf("rgba(0,0,0,0.3)"))
      ])),
      Entry("icon", Leaf("#FFFFFF"))
    ])
  }

  /** The colours of the `blue-gold` theme. */
  function BlueGoldColors(): Tree {
    Node([
      Entry("primary", Leaf("#FFD700")),
      Entry("secondary", Leaf("#1E3A8A")),
      Entry("background", Leaf("#1E3A8A")),
      Entry("surface", Leaf("1E3A8A")),
      Entry("surfaceAlt", Leaf("#264AAD")),
      Entry("text", Leaf("#FFFFFF")),
      Entry("textSecondary", Leaf("#FFE5B4")),
      Entry("textInverse", Leaf("#0D2473")),
      Entry("priceText", Leaf("#FFD700")),
      Entry("statNumber", Leaf("#FFD700")),
      Entry("headerText", Leaf("#FFD700")),
      Entry("button", Node([
        Entry("primary", Node([
          Entry("background", Leaf("#0D2473")),
          Entry("text", Leaf("#FFD700")),
          Entry("hover", Leaf("#1A3891")),
          Entry("active", Leaf("#264AAD"))
        ])),
        Entry("secondary", Node([
          Entry("background", Leaf("#0D2473")),
          Entry("text", Leaf("#FFD700")),
          Entry("hover", Leaf("#1A3891")),
          Entry("active", Leaf("#264AAD"))
        ])),
        Entry("cta", Node([
          Entry("background", Leaf("#0D2473")),
          Entry("text", Leaf("#FFD700")),
          Entry("hover", Leaf("#1A3891")),
          Entry("active", Leaf("#264AAD"))
        ]))
      ])),
      Entry("border", Leaf("#2B4BA8")),
      Entry("shadow", Leaf("#061440")),
      Entry("overlay", Leaf("rgba(13,36,115,0.5)")),
      Entry("error", Leaf("#FF5252")),
      Entry("success", Leaf("#69F0AE")),
      Entry("warning", Leaf("#FFB74D")),
      Entry("info", Leaf("#64B5F6")),
      Entry("card", Node([
        Entry("background", Leaf("#264AAD")),
        Entry("border", Leaf("#2B4BA8")),
        Entry("shadow", Leaf("rgba(6,20,64,0.3)"))
      ])),
      Entry("icon", Leaf("#FFFFFF"))
    ])
  }

  /** The colours of the `default-light` theme. */
  function DefaultLightColors(): Tree {
    Node([
      Entry("primary", Leaf("#1E90FF")),
      Entry("secondary", Leaf("#4169E1")),
      Entry("background", Leaf("#FFFFFF")),
      Entry("surface", Leaf("#F5F5F5")),
      Entry("surfaceAlt", Leaf("#EEEEEE")),
      Entry("text", Leaf("#000000")),
      Entry("textSecondary", Leaf("#666666")),
      Entry("textInverse", Leaf("#FFFFFF")),
      Entry("priceText", Leaf("#FFFFFF")),
      Entry("statNumber", Leaf("#FFFFFF")),
      Entry("headerText", Leaf("#FFFFFF")),
      Entry("button", Node([
        Entry("primary", Node([
          Entry("background", Leaf("#000000")),
          Entry("text", Leaf("#FFFFFF")),
          Entry("hover", Leaf("#1A1A1A")),
          Entry("active", Leaf("#333333"))
        ])),
        Entry("secondary", Node([
          Entry("background", Leaf("#000000")),
          Entry("text", Leaf("#FFFFFF")),
          Entry("hover", Leaf("#1A1A1A")),
          Entry("active", Leaf("#333333"))
        ])),
        Entry("cta", Node([
          Entry("background", Leaf("#000000")),
          Entry("text", Leaf("#FFFFFF")),
          Entry("hover", Leaf("#1A1A1A")),
          Entry("active", Leaf("#333333"))
        ]))
      ])),
      Entry("border", Leaf("#E0E0E0")),
      Entry("shadow", Leaf("#000000")),
      Entry("overlay", Leaf("rgba(0,0,0,0.1)")),
      Entry("error", Leaf("#FF0000")),
      Entry("success", Leaf("#00FF00")),
      Entry("warning", Leaf("#FFB74D")),
      Entry("info", Leaf("#64B5F6")),
      Entry("card", Node([
        Entry("background", Leaf("#FFFFFF")),
        Entry("border", Leaf("#E0E0E0")),
        Entry("shadow", Leaf("rgba(0,0,0,0.1)"))
      ])),
      Entry("icon", Leaf("#000000"))
    ])
  }

  /** The colours of the `odyssey-dark` theme. */
  function OdysseyDarkColors(): Tree {
    Node([
      Entry("primary", Leaf("#FF4081")),
      Entry("secondary", Leaf("#FF80AB")),
      Entry("background", Leaf("#1A1A1A")),
      Entry("surface", Leaf("#2D2D2D")),
      Entry("surfaceAlt", Leaf("#404040")),
      Entry("text", Leaf("#FFFFFF")),
      Entry("textSecondary", Leaf("#BBBBBB")),
      Entry("textInverse", Leaf("#000000")),
      Entry("priceText", Leaf("#FFFFFF")),
      Entry("statNumber", Leaf("#FFFFFF")),
      Entry("headerText", Leaf("#FFFFFF")),
      Entry("button", Node([
        Entry("primary", Node([
          Entry("background", Leaf("#1A1A1A")),
          Entry("text", Leaf("#FFFFFF")),
          Entry("hover", Leaf("#2D2D2D")),
          Entry("active", Leaf("#404040"))
        ])),
        Entry("secondary", Node([
          Entry("background", Leaf("#1A1A1A")),
          Entry("text", Leaf("#FFFFFF")),
          Entry("hover", Leaf("#2D2D2D")),
          Entry("active", Leaf("#404040"))
        ])),
        Entry("cta", Node([
          Entry("background", Leaf("#1A1A1A")),
          Entry("text", Leaf("#FFFFFF")),
          Entry("hover", Leaf("#2D2D2D")),
          Entry("active", Leaf("#404040"))
        ]))
      ])),
      Entry("border", Leaf("#404040")),
      Entry("shadow", Leaf("#000000")),
      Entry("overlay", Leaf("rgba(0,0,0,0.5)")),
      Entry("error", Leaf("#FF5252")),
      Entry("success", Leaf("#69F0AE")),
      Entry("warning", Leaf("#FFB74D")),
      Entry("info", Leaf("#64B5F6")),
      Entry("card", Node([
        Entry("background", Leaf("#2D2D2D")),
        Entry("border", Leaf("#404040")),
        Entry("shadow", Leaf("rgba(0,0,0,0.3)"))
      ])),
      Entry("icon", Leaf("#FFFFFF"))
    ])
  }

  function Ids(ts: seq<Theme>): (r: seq<string>)
    ensures |r| == |ts| && forall i :: 0 <= i < |ts| ==> r[i] == ts[i].id
  {
    if ts == [] then [] else [ts[0].id] + Ids(ts[1..])
  }

  /** The position of the first theme with the id, or -1 when there is none. */
  function FirstWithId(ts: seq<Theme>, id: string): (r: int)
    ensures -1 <= r < |ts|
    ensures r == -1 <==> forall i :: 0 <= i < |ts| ==> ts[i].id != id
    ensures 0 <= r ==> ts[r].id == id && forall j :: 0 <= j < r ==> ts[j].id != id
  {
    if ts == [] then -1
    else if ts[0].id == id then 0
    else
      var k := FirstWithId(ts[1..], id);
      assert forall i :: 1 <= i < |ts| ==> ts[i] == ts[1..][i - 1];
      if k < 0 then -1 else k + 1
  }

  /** `ts.find(theme => theme.id === id)`: the first theme with the id, if there is one. */
  function Find(ts: seq<Theme>, id: string): (r: Option<Theme>)
    ensures r.None? <==> forall i :: 0 <= i < |ts| ==> ts[i].id != id
    ensures r.Some? ==> r.value.id == id && r.value == ts[FirstWithId(ts, id)]
  {
    var k := FirstWithId(ts, id);
    if k < 0 then None else Some(ts[k])
  }

  /** `getThemeById(id)`: the theme with that id, or the first theme of the table. */
  function GetThemeById(id: string): (r: Theme)
    ensures r in ThemeTable()
  {
    Find(ThemeTable(), id).GetOr(ThemeTable()[0])
  }

  /** In a table whose ids are distinct, finding a theme's own id finds that theme. */
  lemma FindOwnId(ts: seq<Theme>, i: nat)
    requires i < |ts| && forall j, k :: 0 <= j < k < |ts| ==> ts[j].id != ts[k].id
    ensures Find(ts, ts[i].id) == Some(ts[i])
  {
  }

  /** The table's ids are pairwise distinct. */
  lemma ThemeIdsDistinct()
    ensures Ids(ThemeTable()) == ["default-dark", "blue-gold", "default-light", "odyssey-dark"]
    ensures forall j, k :: 0 <= j < k < |ThemeTable()| ==> ThemeTable()[j].id != ThemeTable()[k].id
  {
  }

  /** Looking up a theme of the table by its id returns that theme. */
  lemma GetThemeByOwnId(i: nat)
    requires i < |ThemeTable()|
    ensures GetThemeById(ThemeTable()[i].id) == ThemeTable()[i]
  {
    ThemeIdsDistinct();
    FindOwnId(ThemeTable(), i);
  }

  /** A known id returns the theme with that id. */
  lemma GetThemeByKnownId(id: string)
    requires id in Ids(ThemeTable())
    ensures GetThemeById(id).id == id
  {
  }

  /** An unknown id falls back to `default-dark`. */
  lemma GetThemeByUnknownId(id: string)
    requires id !in Ids(ThemeTable())
    ensures GetThemeById(id) == ThemeTable()[0] && GetThemeById(id).id == "default-dark"
  {
  }
}

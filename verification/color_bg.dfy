/**
 * ColorBG: the panel background widget shared by the modules. Besides its fill and stroke colour
 * it keeps a list of text labels, each in a named group; a theme recolours every label and shows
 * the labels of the group "nondefault" only when a named theme is chosen.
 */
module ColorBG {
  type Byte = x: int | 0 <= x < 256

  /** An opaque RGB colour, as `nvgRGB` builds it. */
  datatype Color = RGB(r: Byte, g: Byte, b: Byte)

  /** A point or a size in panel coordinates. */
  datatype Vec = Vec(x: real, y: real)

  /** A colour theme: its name, the background fill and stroke, and the colour of all text. */
  datatype Theme = Theme(name: string, color: Color, stroke: Color, fontColor: Color)

  /** The group whose labels only show under a named theme. */
  const NONDEFAULT: string := "nondefault"

  /** The themes by name; the unnamed one gives light text on a dark background. */
  const BG_THEMES: map<string, Theme> := map[
    "" := Theme("", RGB(35, 35, 35), RGB(215, 215, 215), RGB(255, 255, 255)),
    "Light" := Theme("Light", RGB(225, 225, 225), RGB(195, 195, 195), RGB(15, 15, 15)),
    "Dark" := Theme("Dark", RGB(35, 35, 35), RGB(215, 215, 215), RGB(255, 255, 255))
  ]

  /** Every theme is filed under its own name, and there are exactly the three themes. */
  lemma ThemesFiledByName()
    ensures BG_THEMES.Keys == {"", "Light", "Dark"}
    ensures forall key :: key in BG_THEMES ==> BG_THEMES[key].name == key
  {
  }

  /** One text label; `align` stands for the NanoVG alignment flags. */
  datatype TextEntry = TextEntry(
    text: string,
    font: string,
    group: string,
    enabled: bool,
    color: Color,
    size: real,
    pos: Vec,
    rotation: real,
    align: nat)

  /**
   * A label as it is added while `theme` is the current theme name: enabled, except that a
   * label of the group "nondefault" shows only under a named theme.
   */
  function NewEntry(text: string, font: string, color: Color, size: real, pos: Vec, group: string,
                    rotation: real, align: nat, theme: string): (e: TextEntry)
    ensures e.enabled <==> group != NONDEFAULT || theme != ""
    ensures e.(enabled := true) == TextEntry(text, font, group, true, color, size, pos, rotation, align)
  {
    TextEntry(text, font, group, if group == NONDEFAULT then theme != "" else true, color, size, pos,
              rotation, align)
  }

  /** Every label recoloured to `c`. */
  function Recoloured(list: seq<TextEntry>, c: Color): (r: seq<TextEntry>)
    ensures |r| == |list|
  {
    seq(|list|, i requires 0 <= i < |list| => list[i].(color := c))
  }

  /** The labels of group `g` shown (`v`) or hidden, the others as they were. */
  function WithGroupVisibility(list: seq<TextEntry>, g: string, v: bool): (r: seq<TextEntry>)
    ensures |r| == |list|
  {
    seq(|list|, i requires 0 <= i < |list| => if list[i].group == g then list[i].(enabled := v) else list[i])
  }

  /** The label list after choosing `theme`: all text in the theme's colour, "nondefault" per name. */
  function Themed(list: seq<TextEntry>, theme: Theme): (r: seq<TextEntry>)
    ensures |r| == |list|
  {
    WithGroupVisibility(Recoloured(list, theme.fontColor), NONDEFAULT, theme.name != "")
  }

  /**
   * Group visibility touches exactly the labels of the group: they get visibility `v`, and every
   * other label, the order and the length stay as they were; only `enabled` ever changes.
   */
  lemma GroupVisibilityEffect(list: seq<TextEntry>, g: string, v: bool)
    ensures var r := WithGroupVisibility(list, g, v);
      |r| == |list| &&
      (forall i :: 0 <= i < |r| && list[i].group == g ==> r[i].enabled == v) &&
      (forall i :: 0 <= i < |r| && list[i].group != g ==> r[i] == list[i]) &&
      (forall i :: 0 <= i < |r| ==> r[i].(enabled := list[i].enabled) == list[i])
  {
  }

  /** Setting a group's visibility twice is the same as setting it once. */
  lemma GroupVisibilityIdempotent(list: seq<TextEntry>, g: string, v: bool)
    ensures WithGroupVisibility(WithGroupVisibility(list, g, v), g, v) == WithGroupVisibility(list, g, v)
  {
    var once := WithGroupVisibility(list, g, v);
    var twice := WithGroupVisibility(once, g, v);
    forall i | 0 <= i < |list|
      ensures twice[i] == once[i]
    {
      assert once[i].group == list[i].group;
    }
  }

  /** Recolouring changes only the colour, and recolouring twice is recolouring with the last colour. */
  lemma RecolouredEffect(list: seq<TextEntry>, c: Color, d: Color)
    ensures forall i :: 0 <= i < |list| ==> Recoloured(list, c)[i].color == c
    ensures forall i :: 0 <= i < |list| ==> Recoloured(list, c)[i].(color := list[i].color) == list[i]
    ensures Recoloured(Recoloured(list, c), d) == Recoloured(list, d)
  {
    var twice := Recoloured(Recoloured(list, c), d);
    assert forall i :: 0 <= i < |list| ==> twice[i] == Recoloured(list, d)[i];
  }

  /**
   * After a theme: every label has the theme's font colour, a "nondefault" label shows exactly
   * when the theme is named, and every other label keeps its visibility and everything but colour.
   */
  lemma ThemedEffect(list: seq<TextEntry>, theme: Theme)
    ensures var r := Themed(list, theme);
      (forall i :: 0 <= i < |r| ==> r[i].color == theme.fontColor) &&
      (forall i :: 0 <= i < |r| && list[i].group == NONDEFAULT ==> (r[i].enabled <==> theme.name != "")) &&
      (forall i :: 0 <= i < |r| && list[i].group != NONDEFAULT ==> r[i] == list[i].(color := theme.fontColor))
  {
    var c := Recoloured(list, theme.fontColor);
    var r := Themed(list, theme);
    forall i | 0 <= i < |r|
      ensures r[i].color == theme.fontColor
      ensures list[i].group == NONDEFAULT ==> (r[i].enabled <==> theme.name != "")
      ensures list[i].group != NONDEFAULT ==> r[i] == list[i].(color := theme.fontColor)
    {
      assert c[i] == list[i].(color := theme.fontColor);
    }
  }

  /**
   * A label added under the current theme looks as if it had been there when the theme was
   * chosen: choosing the same theme again leaves it alone, apart from its colour.
   */
  lemma AddedLabelFollowsTheme(list: seq<TextEntry>, theme: Theme, text: string, font: string, color: Color,
                               size: real, pos: Vec, group: string, rotation: real, align: nat)
    ensures var e := NewEntry(text, font, color, size, pos, group, rotation, align, theme.name);
      Themed(list + [e], theme) == Themed(list, theme) + [e.(color := theme.fontColor)]
  {
    var e := NewEntry(text, font, color, size, pos, group, rotation, align, theme.name);
    var lhs := Themed(list + [e], theme);
    var rhs := Themed(list, theme) + [e.(color := theme.fontColor)];
    forall i | 0 <= i < |lhs|
      ensures lhs[i] == rhs[i]
    {
      if i < |list| {
        assert (list + [e])[i] == list[i];
      } else {
        assert (list + [e])[i] == e;
      }
    }
  }

  class ColorBG {
    var color: Color
    var stroke: Color
    var size: Vec
    var drawBackground: bool
    var drawText: bool
    /** The name of the current theme, "" when none is chosen. */
    var currTheme: string
    var textList: seq<TextEntry>

    /** A widget of size `s` on a light background, with no labels and no theme. */
    constructor (s: Vec)
      ensures size == s && color == RGB(225, 225, 225) && stroke == RGB(215, 215, 215)
      ensures drawBackground && drawText && currTheme == "" && textList == []
    {
      size := s;
      color := RGB(225, 225, 225);
      stroke := RGB(215, 215, 215);
      drawBackground := true;
      drawText := true;
      currTheme := "";
      textList := [];
    }

    /** Every label takes colour `c`. */
    method SetFontColor(c: Color)
      modifies this`textList
      ensures textList == Recoloured(old(textList), c)
    {
      var i := 0;
      while i < |textList|
        invariant 0 <= i <= |textList| == |old(textList)|
        invariant forall k :: 0 <= k < |textList| ==>
          textList[k] == if k < i then old(textList)[k].(color := c) else old(textList)[k]
      {
        textList := textList[i := textList[i].(color := c)];
        i := i + 1;
      }
    }

    /** The labels of group `group` are shown or hidden; no other label changes. */
    method SetTextGroupVisibility(group: string, visibility: bool)
      modifies this`textList
      ensures textList == WithGroupVisibility(old(textList), group, visibility)
    {
      var i := 0;
      while i < |textList|
        invariant 0 <= i <= |textList| == |old(textList)|
        invariant forall k :: 0 <= k < |textList| ==>
          textList[k] == if k < i then WithGroupVisibility(old(textList), group, visibility)[k]
                         else old(textList)[k]
      {
        if textList[i].group == group {
          textList := textList[i := textList[i].(enabled := visibility)];
        }
        i := i + 1;
      }
    }

    /** Takes the background colours and the font colour of `theme`, and its name as the current one. */
    method SetTheme(theme: Theme)
      modifies this`currTheme, this`color, this`stroke, this`textList
      ensures currTheme == theme.name && color == theme.color && stroke == theme.stroke
      ensures textList == Themed(old(textList), theme)
    {
      currTheme := theme.name;
      color := theme.color;
      stroke := theme.stroke;
      SetFontColor(theme.fontColor);
      SetTextGroupVisibility(NONDEFAULT, theme.name != "");
    }

    /** Appends one label under the current theme and returns its index, the old length. */
    method AddText(text: string, font: string, c: Color, size: real, pos: Vec, group: string,
                   rotation: real, align: nat) returns (index: nat)
      modifies this`textList
      ensures index == |old(textList)|
      ensures textList == old(textList) + [NewEntry(text, font, c, size, pos, group, rotation, align, currTheme)]
    {
      textList := textList + [TextEntry(text, font, group, true, c, size, pos, rotation, align)];
      if group == NONDEFAULT {
        textList := textList[|textList| - 1 := textList[|textList| - 1].(enabled := currTheme != "")];
      }
      index := |textList| - 1;
    }

    /** Replaces the text of label `pos`; nothing else changes. */
    method UpdateText(pos: nat, text: string)
      requires pos < |textList|
      modifies this`textList
      ensures textList == old(textList)[pos := old(textList)[pos].(text := text)]
    {
      textList := textList[pos := textList[pos].(text := text)];
    }
  }
}

/** The three fixed appearance palettes of the app (src/App.js:28-70).
    A note stores the chosen entry by value; the CSS class strings of each
    entry are presentation only, so an entry is modelled by its name alone. */
module Palette {

  /** NOTE_COLORS: the background colours of a note card. */
  datatype NoteColor = Yellow | Pink | Blue | Green | Purple | Gray

  /** PRESET_FONT_COLORS: the text colours. */
  datatype FontColor =
    | Black | Slate | GrayText | Red | Orange | Amber | YellowText | Lime
    | GreenText | Emerald | Teal | Cyan | Sky | BlueText | Indigo | Violet
    | PurpleText | Fuchsia | PinkText | Rose | White

  /** PRESET_FONT_SIZES. */
  datatype FontSize = Small | Medium | Large | XL

  /** The palettes in display order. */
  const NoteColors: seq<NoteColor> := [Yellow, Pink, Blue, Green, Purple, Gray]
  const FontColors: seq<FontColor> :=
    [Black, Slate, GrayText, Red, Orange, Amber, YellowText, Lime, GreenText, Emerald, Teal,
     Cyan, Sky, BlueText, Indigo, Violet, PurpleText, Fuchsia, PinkText, Rose, White]
  const FontSizes: seq<FontSize> := [Small, Medium, Large, XL]
}

/** The Tailwind colour families the pages draw badges and icons in. */
module Palette {
  /** A colour family: an icon in it is drawn `text-<tone>-600`, a badge
      `bg-<tone>-100 text-<tone>-800`. */
  datatype Tone = Blue | Green | Red | Yellow | Orange | Purple | Indigo | Gray
}

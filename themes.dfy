/** Styles and themes as the controls see them: a style is an opaque handle
    and a theme maps a (control id, style name) pair to a style. */
module Themes {

  /** A reference to a style object; its drawing is not part of this model. */
  datatype StyleRef = StyleRef(id: nat)

  /** A theme: style lookup by (control id, style name). */
  type Theme = map<(string, string), StyleRef>

  /** `Theme.add`: registers `style` under (`control`, `name`), replacing any
      earlier entry there and keeping every other entry. */
  function Add(theme: Theme, control: string, name: string, style: StyleRef): (t: Theme)
    ensures (control, name) in t && t[(control, name)] == style
    ensures forall k :: k in theme && k != (control, name) ==> k in t && t[k] == theme[k]
    ensures t.Keys == theme.Keys + {(control, name)}
  {
    theme[(control, name) := style]
  }
}

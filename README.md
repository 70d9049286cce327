# phoebusgen property helpers and colour loader, in Dafny

phoebusgen generates Phoebus display files (`.bob`): XML trees in which each widget
is an element and each widget property is a child element. This project models two
parts of it.

- **The property helpers** (`_SharedPropertyFunctions`). These are the setters that
  widgets and screens use to write their properties into an element tree in place.
  The central rule is *replace-or-append*: `create_element` removes the first child
  that has the property's tag, and `generic_property` appends the fresh element at
  the end. The typed setters (integer, number, boolean) normalise their argument
  before writing, or refuse it and leave the tree as it was. The colour and font
  builders choose the new element's attributes by the kind of their input: RGBA
  components, an enum member, a dict, or a name in the predefined table.
  `add_macro` and `get_font_element` find or create a `macros` child or a font
  child.
- **The `color.def` loader** (`_update_color_def`). It reads `name = r, g, b[, a]`
  lines and `name = other` alias lines into a table from colour names to
  `{red, green, blue, alpha}` records. It strips `#` comments and blank lines.

Files and modules:

- `py_text.dfy` (`PyText`) holds the pieces of Python the code relies on:
  - argument values (None, bool, int, str), the exceptions that can escape, and `str()`;
  - the string methods `lower`, `upper`, `strip`, `rstrip`, `partition` and `split`;
  - `int()` of a string;
  - and lemmas about them: `int(str(i)) == i`, split/join round trips, case-insensitive equality.
- `xml_tree.dfy` (`XmlTree`) holds a mutable `Element` class and the child-list
  operations `find`, `remove` and `append`. It proves the replace-or-append rule's
  properties: which child goes, that the order of the rest is kept, and idempotence.
- `property_helpers.dfy` (`PropertyHelpers`) holds the `FontStyle` enumeration,
  the argument-normalising functions, and the `PropertyHelper` class. Each setter
  of that class is a method that changes the tree in place. Its contract states
  the new child lists and attributes, and states which elements stay untouched
  (its `modifies` frame).
- `color_def.dfy` (`ColorDef`) holds the loader.
  - `UpdateColorDef` is the loop over the lines. It is proved equal to `ParseLines`, a fold of the one-line step `ParseLine`.
  - The lemmas state what comments, aliases, component counts and malformed lines do, and that every record has exactly the four component keys.

The model keeps these quirks of the code:

- `create_color_element` removes the `color` child of the helper's root, not of the element it appends to.
- An enum member's `name` attribute is written and then overwritten by the member's value.
- `create_named_font_element` removes from the element it is given but appends to the root.
- `boolean_property` raises AttributeError for None, and `valid_rgb_value` raises TypeError for None.
- The loader's default alpha is the int 255, while every other component is a string.

The colour and font tables are parameters of the `PropertyHelper` constructor.
Each setter that can refuse or raise reports how it ended, as `Done`, `Rejected` (a
message was printed and the method returned) or `Raised(error)` (a Python exception
escaped). `GenericProperty`, `CreateElement`, `AddMacro` and `GetFontElement` can do
neither and return no outcome.

## Model

| member | source | states |
|---|---|---|
| PyText.IntToString | phoebusgen/_shared_property_helpers.py:62 | `str()` of an int starts with a minus sign exactly when the int is negative, and the rest is a non-empty run of digits |
| PyText.Str | phoebusgen/_shared_property_helpers.py:83 | `str()` of a str is the str itself, and of None, a bool or an int never the empty text |
| PyText.StrReadsBack | phoebusgen/_shared_property_helpers.py:60-67 | the text `str()` gives an int reads back through `int()` as that int; the text of None or a bool (`None`, `True`, `False`) does not read as an int |
| PyText.Upper | phoebusgen/_shared_property_helpers.py:135 | `upper()` keeps the length and every letter up to case, and leaves no lower-case letter |
| PyText.NatToString | phoebusgen/_shared_property_helpers.py:62 | `str()` of a non-negative int is a non-empty run of decimal digits |
| PyText.LowerEqualsIff | phoebusgen/_shared_property_helpers.py:48 | `s.lower() == w` holds exactly when `s` spells `w` in any mix of cases |
| PyText.Before | phoebusgen/__init__.py:24 | `partition('#')[0]` is the prefix before the first `#`, which holds no `#`; it is all of the line when there is no `#` |
| PyText.LStrip | phoebusgen/__init__.py:27-28 | `lstrip` gives a suffix of the text; everything dropped is whitespace and what is left does not start with whitespace |
| PyText.RStrip | phoebusgen/__init__.py:24 | `rstrip` gives a prefix of the text; everything dropped is whitespace and what is left does not end with whitespace |
| PyText.StripAfterRStrip | phoebusgen/__init__.py:24-28 | `strip()` after `rstrip()` gives the same text as `strip()` alone |
| PyText.Split | phoebusgen/__init__.py:26 | `split` always gives at least one piece |
| PyText.SplitJoin | phoebusgen/__init__.py:26 | splitting gives one piece more than there are separators; no piece holds the separator; joining the pieces gives the text back |
| PyText.JoinSplit | phoebusgen/__init__.py:26-28 | splitting the join of separator-free pieces gives the pieces back |
| PyText.BeforeConcat | phoebusgen/__init__.py:24 | text after the first `#` does not reach the partition's first part |
| PyText.BeforeAbsent | phoebusgen/__init__.py:24 | a line without `#` is its own partition first part |
| PyText.ParseInt | phoebusgen/_shared_property_helpers.py:67 | `int()` of a string with no digit at all fails (ValueError) |
| PyText.ParseIntRefusesSeparators | phoebusgen/_shared_property_helpers.py:67 | `int()` fails on text that starts with one of U+001C to U+001F, although `str.isspace` counts those characters as whitespace |
| PyText.ParseIntSignedDigits | phoebusgen/_shared_property_helpers.py:67 | an optional minus sign followed by well-formed digits reads through `int()` as that signed number |
| PyText.IntToStringRoundTrip | phoebusgen/_shared_property_helpers.py:67 | `int(str(i)) == i` for every integer |
| XmlTree.Element.constructor | phoebusgen/_shared_property_helpers.py:57 | `Element(tag)` has that tag, no text, no attributes and no children |
| XmlTree.FirstIndex | phoebusgen/_shared_property_helpers.py:54 | `find` stops at the first child with the tag: none exists exactly when the tag does not occur, and no earlier child has it |
| XmlTree.Find | phoebusgen/_shared_property_helpers.py:54-55 | `find` answers None exactly when no child has the tag, and otherwise a child with that tag |
| XmlTree.RemoveFound | phoebusgen/_shared_property_helpers.py:54-56 | removing the element `find` returned removes the first child with that tag and no other child |
| XmlTree.WithoutFirstRemovesFirst | phoebusgen/_shared_property_helpers.py:53-56 | removing the first child with a tag removes exactly one child when one exists and nothing otherwise; the children with every other tag keep their order; among those with the tag only the first is gone |
| XmlTree.ReplaceOrAppendShape | phoebusgen/_shared_property_helpers.py:28-29 | after `generic_property` the new element is the last child; the count is unchanged if the tag existed and one higher otherwise; the children with every other tag are kept in order; among those with the tag, the first old one is gone |
| XmlTree.ReplaceOrAppendTwice | phoebusgen/_shared_property_helpers.py:28-29 | with at most one child per tag, writing a property twice gives the child list of writing it once with the second element |
| XmlTree.FirstIndexAfterAbsent | phoebusgen/_shared_property_helpers.py:22-24 | an element appended behind children that lack its tag is what `find` returns next |
| XmlTree.ReplaceOrAppendKeepsTagsUnique | phoebusgen/_shared_property_helpers.py:28-29 | replace-or-append keeps "at most one child per tag", and afterwards exactly one child has the new tag |
| PropertyHelpers.FontStyle.Value | phoebusgen/_shared_property_helpers.py:143-147 | each `FontStyle` member's value is a non-empty upper-case word, which `upper()` leaves as it is |
| PropertyHelpers.FontStyleValuesDistinct | phoebusgen/_shared_property_helpers.py:143-147 | two members have the same value exactly when they are the same member, so the `style` written names the member |
| PropertyHelpers.ElementText | phoebusgen/_shared_property_helpers.py:58-62 | the new element has no text exactly for None; a bool gives `true`/`false`; an int gives its decimal text; a str gives itself |
| PropertyHelpers.IntegerArg | phoebusgen/_shared_property_helpers.py:31-35 | an int or a bool is accepted, a bool as 0 or 1; anything else is refused; nothing raises |
| PropertyHelpers.IntegerTextReadsBack | phoebusgen/_shared_property_helpers.py:31-35 | the text `integer_property` writes reads back through `int()` as the integer it was given |
| PropertyHelpers.NumberArg | phoebusgen/_shared_property_helpers.py:37-41 | exactly an int or a bool is accepted, unchanged; anything else is refused; nothing raises |
| PropertyHelpers.BooleanArg | phoebusgen/_shared_property_helpers.py:43-51 | only `true` or `false` is written; a bool gives its own value; an int gives `true` exactly when non-zero; exactly None raises, and it raises AttributeError |
| PropertyHelpers.BooleanArgString | phoebusgen/_shared_property_helpers.py:48-51 | a string is stored as `true` exactly when it spells "true" ignoring case, as `false` exactly when it spells "false", and is refused otherwise |
| PropertyHelpers.PyIntOf | phoebusgen/_shared_property_helpers.py:67 | `int(val)` fails exactly for None (TypeError) and for a str without a decimal reading (ValueError); a str reads as what `int()` parses |
| PropertyHelpers.ValidRgbValue | phoebusgen/_shared_property_helpers.py:65-75 | a value is valid exactly when `int()` of it lies in 0..255; a string with no digit is invalid; exactly None lets an exception escape, and it is TypeError |
| PropertyHelpers.ValidRgbText | phoebusgen/_shared_property_helpers.py:65-75 | the decimal text of a number is valid exactly when the number is in 0..255 |
| PropertyHelpers.CheckComponents | phoebusgen/_shared_property_helpers.py:80-82 | the check over the components passes exactly when every component is valid; otherwise its answer is that of the first component that is not valid |
| PropertyHelpers.ColorAttrib | phoebusgen/_shared_property_helpers.py:79-99 | an enum member with a dict value gives that value only; an enum member with any other value raises TypeError; a dict is taken as it is; an input that is not an enum member, dict or str is refused; only the RGBA path and a non-dict member can raise |
| PropertyHelpers.ColorAttribComponents | phoebusgen/_shared_property_helpers.py:79-83 | without a colour name the element is made exactly when all four components are valid |
| PropertyHelpers.ColorAttribComponentText | phoebusgen/_shared_property_helpers.py:83 | a colour made from components has exactly the keys red, green, blue and alpha, each holding `str()` of its component |
| PropertyHelpers.ColorAttribRaises | phoebusgen/_shared_property_helpers.py:65-82 | only a None component raises, and what it raises is TypeError; a None red always raises |
| PropertyHelpers.ColorAttribNamed | phoebusgen/_shared_property_helpers.py:90-96 | a table name is accepted exactly when it is in the table; the attributes are then the entry's with `name` set to that name |
| PropertyHelpers.FontAttrib | phoebusgen/_shared_property_helpers.py:125-139 | an enum member with a dict value, or a dict, is taken as it is; an enum member with any other value raises TypeError; an input that is not an enum member, dict or str is refused. A table name is refused exactly when it is missing. A name whose entry has no `style` raises KeyError, one with a non-str style raises AttributeError, and otherwise the entry is taken with its style upper-cased |
| PropertyHelpers.PropertyHelper.constructor | phoebusgen/_shared_property_helpers.py:5-11 | the helper keeps its root element and the colour and font tables |
| PropertyHelpers.PropertyHelper.AddMacro | phoebusgen/_shared_property_helpers.py:19-26 | an existing `macros` child is reused, or exactly one is appended. It gains exactly one new last child, with tag `name` and text `str(val)`. Nothing else changes |
| PropertyHelpers.PropertyHelper.GenericProperty | phoebusgen/_shared_property_helpers.py:28-29 | the first child with the tag is removed and a fresh element with that tag and the value's text is appended at the end |
| PropertyHelpers.PropertyHelper.IntegerProperty | phoebusgen/_shared_property_helpers.py:31-35 | an int or a bool is written as an int by replace-or-append; anything else leaves the children unchanged |
| PropertyHelpers.PropertyHelper.NumberProperty | phoebusgen/_shared_property_helpers.py:37-41 | an int or a bool is written as given by replace-or-append; anything else leaves the children unchanged |
| PropertyHelpers.PropertyHelper.BooleanProperty | phoebusgen/_shared_property_helpers.py:43-51 | writes what `BooleanArg` decides by replace-or-append; a refused string or a None leaves the children unchanged |
| PropertyHelpers.PropertyHelper.CreateElement | phoebusgen/_shared_property_helpers.py:53-63 | returns a fresh, unattached element with the tag, the value's text and no attributes or children; the parent loses exactly its first child with that tag |
| PropertyHelpers.PropertyHelper.CreateColorElement | phoebusgen/_shared_property_helpers.py:77-102 | the root always loses its first `color` child. If the input is refused or raises nothing else changes. Otherwise a fresh `color` element with the attributes `ColorAttrib` decides is appended to the given element, and that element is appended to the root when asked |
| PropertyHelpers.PropertyHelper.AttachColor | phoebusgen/_shared_property_helpers.py:100-102 | appends the colour element to its holder and, when asked, the holder to the root; both land on the root's list when the holder is the root |
| PropertyHelpers.PropertyHelper.ColorAttribFor | phoebusgen/_shared_property_helpers.py:79-99 | checking the components one by one in a loop, and the member and table steps as written, give exactly what `ColorAttrib` decides |
| PropertyHelpers.PropertyHelper.GetFontElement | phoebusgen/_shared_property_helpers.py:104-114 | afterwards the element has a `fontElemName` child holding a `font` child, which is returned. A missing one is appended fresh, a new `font` with Liberation Sans/14/REGULAR. When both exist nothing changes, so a second call is a no-op |
| PropertyHelpers.PropertyHelper.AddFontStyle | phoebusgen/_shared_property_helpers.py:116-121 | a non-`FontStyle` argument changes nothing. A member finds or creates the holder and the font element as `get_font_element` does: the new child lists are stated for each case, a missing holder or font being appended at the end. It sets the font's `style` to the member's value and keeps every other attribute, on a new font element (defaults plus that style) if there was none |
| PropertyHelpers.PropertyHelper.CreateNamedFontElement | phoebusgen/_shared_property_helpers.py:123-141 | the given element loses its first `fontElemName` child. If the input is refused or raises nothing else changes. Otherwise a fresh `fontElemName` element holding one fresh `font` element with the attributes `FontAttrib` decides is appended to the root |
| ColorDef.Rgba | phoebusgen/__init__.py:36 | a record built from components has exactly the keys red, green, blue and alpha |
| ColorDef.LineEntry | phoebusgen/__init__.py:26-36 | a line's entry is keyed by the stripped text left of `=`; built from a well-formed table it has exactly the four keys |
| ColorDef.EntryOf | phoebusgen/__init__.py:29-36 | an entry is keyed by the colour name; built from a well-formed table it has exactly the four keys |
| ColorDef.ParseLine | phoebusgen/__init__.py:24-25 | a line that is blank once its comment and trailing whitespace are removed leaves the table as it was |
| ColorDef.ParseLineOnlyItsEntry | phoebusgen/__init__.py:26-36 | a line that succeeds sets the entry of its own name, overwriting an earlier one, and leaves every other entry as it was |
| ColorDef.ParseLineWellFormed | phoebusgen/__init__.py:29-36 | a line keeps every record at exactly the four component keys |
| ColorDef.UpdateColorDef | phoebusgen/__init__.py:17-37 | the loop over the lines computes exactly the fold of the one-line step from an empty table, with the first raising line ending the load |
| ColorDef.ParseLinesStep | phoebusgen/__init__.py:23-36 | one more line extends the parse of the lines before it by that line's step, and an earlier failure stays |
| ColorDef.ErrorSticks | phoebusgen/__init__.py:23-26 | once some line raises, the whole load fails with that exception |
| ColorDef.ParseLinesWellFormed | phoebusgen/__init__.py:17-37 | every record of a loaded table has exactly the keys red, green, blue and alpha |
| ColorDef.CommentIgnored | phoebusgen/__init__.py:24 | text from the first `#` on does not affect the line |
| ColorDef.WrongEqualsCount | phoebusgen/__init__.py:26 | a non-blank line with no `=` or with more than one raises ValueError |
| ColorDef.LinePieces | phoebusgen/__init__.py:24-28 | a line `n = v0, v1, ...` splits on `=` into the name and the component text, whose stripped pieces are the stripped components |
| ColorDef.ComponentsOf | phoebusgen/__init__.py:24-28 | the trailing-whitespace strip of the line does not change the stripped components |
| ColorDef.LineOfComponents | phoebusgen/__init__.py:24-36 | `n = v0, ...`: one component aliases the record already stored, or raises KeyError. Two raise IndexError, three give alpha 255, four use the fourth as alpha, five or more ignore the extras and give alpha 255. All parts are stripped and only the name's entry changes |
| ColorDef.EntryOfComponents | phoebusgen/__init__.py:29-36 | the entry from the stripped components, case by case: alias or KeyError, IndexError, or a record with alpha from the fourth component or 255 |
| ColorDef.AliasNeedsEarlierDefinition | phoebusgen/__init__.py:29-30 | an alias line for a name no earlier line defined makes the whole load fail with KeyError; for a defined one the new name gets that record |

## Left out

- File and OS access is not modelled: the `~/.phoebusgen/color.def` override, `path.isfile`, `open`, and the module-level load (`phoebusgen/__init__.py:9-15, 43`). The loader takes the file's lines as a sequence of strings.
- The missing-file branch at `phoebusgen/__init__.py:20-22` prints and then fails in `open`. It is I/O and is not modelled.
- The final `Enum('colors', predefined_colors)` (`phoebusgen/__init__.py:37`) is not modelled. The loader returns the table itself, so the way Python's enum machinery merges members with equal values is not captured.
- `print` diagnostics are not modelled. A setter that prints and returns ends as `Rejected` with the tree as it was, apart from removals the source makes before it checks.
- Floats are not modelled: `int(float)` truncation and `str(float)` formatting in `integer_property`/`number_property`, and float input to `valid_rgb_value`. Values are None, bool, int or str.
- ElementTree itself is not modelled. `find` is "the first direct child with this tag" (no XPath), `remove` removes by identity, and XML serialisation is left out.
- The predefined colour and font tables are given to the constructor as values. Their module (`phoebusgen/_shared_property_helpers.py:7`) is not part of this model.
- Python dicts are shared by reference, which the model does not capture. Alias entries share one dict (`phoebusgen/__init__.py:30`). `create_color_element` and `create_named_font_element` write `name` or `style` into the looked-up table dict (`phoebusgen/_shared_property_helpers.py:96, 135`), which changes the table for later calls. The model writes into a copy, and the table stays as it was.
- A `FontMember`/`ColorMember`/`ColorDict`/`FontDict` value becomes the element's attribute map by value, not by sharing the caller's dict.
- `update_font_def` (`phoebusgen/__init__.py:39-40`) is a no-op and is not modelled. The `widget` and `screen` modules and the enumerations other than `FontStyle` (`phoebusgen/_shared_property_helpers.py:149-216`) are not part of this model.
- `self.colors`, `self.fonts`, `arrow_types`, `line_styles` and `formats_array` set in `__init__` (`phoebusgen/_shared_property_helpers.py:10-17`) are used by no modelled operation and are not kept.
- PropertyHelpers.ColorAttrib: an enum member whose value is not a dict raises TypeError as the C ElementTree does when that value is assigned to `attrib`. The pure-Python ElementTree would accept it and append an element with a non-dict `attrib`; that variant is not modelled.
- PropertyHelpers.FontAttrib: makes the same choice for an enum member whose value is not a dict (TypeError at the `attrib` assignment).
- Case mapping (`lower`, `upper`) covers ASCII letters only. `int()` accepts ASCII digits only, not other Unicode decimal digits.
- PropertyHelpers.PropertyHelper.AddMacro: requires that the `macros` child found under the target is not the target itself. Then the target's child list and the `macros` element's child list are distinct lists. Without the requirement they could be the same list, which the contract does not describe. An element can be its own child in these trees: `create_color_element` with the root as holder and `add_to_root` set appends the root to itself.
- PropertyHelpers.PropertyHelper.GetFontElement: requires that the `fontElemName` child found is not the element itself, for the same reason.
- PropertyHelpers.PropertyHelper.AddFontStyle: requires that the `fontElemName` child found is not the element itself, for the same reason.
- PropertyHelpers.PropertyHelper.CreateElement: from Python 3.11 on, `str()` of an int with more than 4300 digits raises ValueError (the default `int_max_str_digits` limit). The model writes the digits of any int instead. In the source the first child with the tag is then already removed and the exception escapes. IntegerProperty, NumberProperty and GenericProperty inherit this.
- PropertyHelpers.PropertyHelper.AddMacro: for the same limit, `str(val)` of such an int raises after the new macro element has been appended without text. The model sets the text.
- PropertyHelpers.ValidRgbValue: for the same limit, `int()` of a string of more than 4300 digits raises ValueError, so the source answers False. The model reads the number: a long run of zeros before a value in 0..255 is then valid. No other answer changes, because any other number that long is above 255.
- PyText.ParseInt: its own contract states only the no-digit case. Its agreement with `str()` is stated by `PyText.IntToStringRoundTrip`, and its full grammar is left to its definition.
- PyText.Split: its own contract states only that there is at least one piece. The rest is stated by `PyText.SplitJoin` and `PyText.JoinSplit`.

/** `_SharedPropertyFunctions`: the typed property setters that widgets and screens
    use to write their properties as child elements of an XML element. Each setter
    normalises its argument and then applies the replace-or-append rule, or refuses
    the argument and leaves the tree as it was. */
module PropertyHelpers {
  import opened PyText
  import opened XmlTree

  /** The `FontStyle` enumeration. */
  datatype FontStyle = Regular | Italic | Bold | BoldAndItalic {
    /** The member's value, which is what a font's `style` attribute holds: a
        non-empty word already in upper case, so `upper()` keeps it. */
    function Value(): (r: string)
      ensures |r| > 0 && Upper(r) == r
    {
      match this
      case Regular => "REGULAR"
      case Italic => "ITALIC"
      case Bold => "BOLD"
      case BoldAndItalic => "BOLD_ITALIC"
    }
  }

  /** Different members have different values, so the `style` attribute tells which
      member was written. */
  lemma FontStyleValuesDistinct(a: FontStyle, b: FontStyle)
    ensures a.Value() == b.Value() <==> a == b
  {
  }

  /** The argument of `add_font_style`: a `FontStyle` member, or anything else. */
  datatype StyleArg = StyleMember(style: FontStyle) | NotAStyle

  /** The colour argument `name` of `create_color_element`. */
  datatype ColorInput =
    | NoColorName                                              // None: use the RGBA components
    | ColorMember(memberName: string, value: map<string, Value>) // a member of the `colors` enum
    | ColorOtherMember(memberName: string, other: Value)        // an enum member whose value is not a dict
    | ColorDict(attrs: map<string, Value>)                      // a dict of attributes
    | ColorNamed(colorName: string)                             // a name in the colour table
    | OtherColorInput                                           // anything that is not an enum member, dict or str

  /** The font argument `name` of `create_named_font_element`. */
  datatype FontInput =
    | FontMember(value: map<string, Value>)  // a member of the `fonts` enum
    | FontOtherMember(other: Value)          // an enum member whose value is not a dict
    | FontDict(attrs: map<string, Value>)    // a dict of attributes
    | FontNamed(fontName: string)            // a name in the font table
    | OtherFontInput                         // not an enum member, dict or str; None included

  /** What a setter makes of its argument: a value to write, a printed refusal, or
      an exception. */
  datatype Decision<+T> = Accept(value: T) | Reject | Raise(error: PyError)

  function OutcomeOf<T>(d: Decision<T>): Outcome {
    match d
    case Accept(_) => Done
    case Reject => Rejected
    case Raise(e) => Raised(e)
  }

  /** The attributes a newly made `font` element gets. */
  const DefaultFont: map<string, Value> :=
    map["family" := PyStr("Liberation Sans"), "size" := PyStr("14"), "style" := PyStr("REGULAR")]

  /** The text `create_element` gives a new element: none for None, lower-case
      `true`/`false` for a bool, `str(val)` otherwise. */
  function ElementText(val: Value): (r: Option<string>)
    ensures r.None? <==> val.PyNone?
    ensures val.PyBool? ==> r == Some(if val.b then "true" else "false")
    ensures val.PyInt? ==> r == Some(IntToString(val.i))
    ensures val.PyStr? ==> r == Some(val.s)
  {
    if val.PyNone? then None
    else if val.PyBool? then
      assert Lower("True") == "true" && Lower("False") == "false";
      Some(Lower(Str(val)))
    else Some(Str(val))
  }

  /** What `integer_property` writes: `int(val)` for an int or a bool (a bool is an
      int in Python); anything else is refused with a message. */
  function IntegerArg(val: Value): (r: Decision<Value>)
    ensures r.Accept? <==> val.PyInt? || val.PyBool?
    ensures !r.Raise?
    ensures r.Accept? ==> r.value.PyInt?
    ensures val.PyInt? ==> r == Accept(val)
    ensures val.PyBool? ==> r == Accept(PyInt(if val.b then 1 else 0))
  {
    match val
    case PyInt(i) => Accept(PyInt(i))
    case PyBool(b) => Accept(PyInt(if b then 1 else 0))
    case _ => Reject
  }

  /** What `number_property` writes: an int or bool unchanged; anything else is
      refused with a message. */
  function NumberArg(val: Value): (r: Decision<Value>)
    ensures r.Accept? <==> val.PyInt? || val.PyBool?
    ensures !r.Raise?
    ensures r.Accept? ==> r.value == val
  {
    if val.PyInt? || val.PyBool? then Accept(val) else Reject
  }

  /** What `boolean_property` writes: always the text `true` or `false`. A bool gives
      its own value, an int gives `true` exactly when it is non-zero, a str is
      lower-cased and accepted only if that gives `true` or `false`; None has no
      `lower` method, so it raises AttributeError. */
  function BooleanArg(val: Value): (r: Decision<Value>)
    ensures r.Accept? ==> r.value == PyStr("true") || r.value == PyStr("false")
    ensures val.PyBool? ==> r == Accept(PyStr(if val.b then "true" else "false"))
    ensures val.PyInt? ==> r == Accept(PyStr(if val.i != 0 then "true" else "false"))
    ensures val.PyNone? <==> r.Raise?
    ensures val.PyNone? ==> r == Raise(AttributeError)
  {
    assert Lower("True") == "true" && Lower("False") == "false";
    match val
    case PyBool(b) => Accept(PyStr(Lower(Str(val))))
    case PyInt(i) => Accept(PyStr(Lower(Str(PyBool(i != 0)))))
    case PyStr(s) =>
      if Lower(s) == "true" || Lower(s) == "false" then Accept(PyStr(Lower(s))) else Reject
    case PyNone => Raise(AttributeError)
  }

  /** A string argument to `boolean_property` is stored as `true` exactly when it
      spells "true" in any case, as `false` exactly when it spells "false", and is
      refused otherwise. */
  lemma BooleanArgString(s: string)
    ensures BooleanArg(PyStr(s)) == Accept(PyStr("true")) <==> SpellsIgnoringCase(s, "true")
    ensures BooleanArg(PyStr(s)) == Accept(PyStr("false")) <==> SpellsIgnoringCase(s, "false")
    ensures BooleanArg(PyStr(s)) == Reject
        <==> !SpellsIgnoringCase(s, "true") && !SpellsIgnoringCase(s, "false")
  {
    LowerEqualsIff(s, "true");
    LowerEqualsIff(s, "false");
  }

  /** The text `integer_property` stores reads back, through `int()`, as the
      integer it was given (a bool as 0 or 1). */
  lemma IntegerTextReadsBack(val: Value)
    requires IntegerArg(val).Accept?
    ensures ElementText(IntegerArg(val).value).Some?
    ensures ParseInt(ElementText(IntegerArg(val).value).value) == Some(IntegerArg(val).value.i)
  {
    IntToStringRoundTrip(IntegerArg(val).value.i);
  }

  /** `int(val)`: an int as itself, a bool as 0 or 1, a str through its decimal
      text (ValueError when it has none), None raises TypeError. */
  function PyIntOf(val: Value): (r: Result<int, PyError>)
    ensures r.Err? <==> val.PyNone? || (val.PyStr? && ParseInt(val.s).None?)
    ensures r.Err? ==> r.error == (if val.PyNone? then TypeError else ValueError)
    ensures val.PyStr? && r.Ok? ==> r.value == ParseInt(val.s).value
  {
    match val
    case PyInt(i) => Ok(i)
    case PyBool(b) => Ok(if b then 1 else 0)
    case PyStr(s) =>
      (match ParseInt(s)
       case Some(n) => Ok(n)
       case None => Err(ValueError))
    case PyNone => Err(TypeError)
  }

  /** `valid_rgb_value`: converts with `int()`, answers false when that raises
      ValueError, and otherwise whether the number lies in 0..255. Only ValueError
      is caught, so None lets TypeError escape. */
  function ValidRgbValue(val: Value): (r: Result<bool, PyError>)
    ensures r.Err? <==> val.PyNone?
    ensures r.Err? ==> r.error == TypeError
    ensures val.PyInt? ==> r == Ok(0 <= val.i <= 255)
    ensures val.PyBool? ==> r == Ok(true)
    ensures val.PyStr? ==> (r == Ok(true) <==> ParseInt(val.s).Some? && 0 <= ParseInt(val.s).value <= 255)
    ensures val.PyStr? && (forall k :: 0 <= k < |val.s| ==> !IsDigit(val.s[k])) ==> r == Ok(false)
  {
    match PyIntOf(val)
    case Err(ValueError) => Ok(false)
    case Err(e) => Err(e)
    case Ok(n) => Ok(0 <= n <= 255)
  }

  /** The decimal text of a number is a valid component exactly when the number is. */
  lemma ValidRgbText(n: int)
    ensures ValidRgbValue(PyStr(IntToString(n))) == Ok(0 <= n <= 255)
  {
    IntToStringRoundTrip(n);
  }

  /** The check `create_color_element` runs over its components in order: the
      first component that is not valid decides the answer. */
  function CheckComponents(vs: seq<Value>): (r: Result<bool, PyError>)
    ensures r == Ok(true) <==> forall k :: 0 <= k < |vs| ==> ValidRgbValue(vs[k]) == Ok(true)
    ensures r != Ok(true) ==> exists k :: 0 <= k < |vs| && ValidRgbValue(vs[k]) == r
                                  && forall j :: 0 <= j < k ==> ValidRgbValue(vs[j]) == Ok(true)
  {
    if vs == [] then Ok(true)
    else
      var first := ValidRgbValue(vs[0]);
      if first == Ok(true) then
        var rest := CheckComponents(vs[1..]);
        assert rest != Ok(true) ==> ValidRgbValue(vs[0]) == Ok(true);
        rest
      else first
  }

  /** The attribute map of a colour given by its components: `str()` of each. */
  function RgbaAttrib(red: Value, green: Value, blue: Value, alpha: Value): map<string, Value> {
    map["red" := PyStr(Str(red)), "blue" := PyStr(Str(blue)),
        "green" := PyStr(Str(green)), "alpha" := PyStr(Str(alpha))]
  }

  /** The attributes `create_color_element` gives the new `color` element: the
      RGBA components as `str()` of each once all four are valid; an enum member's
      value only (its name is written and then overwritten); a dict as it is; a
      table entry plus `name`; an input that is not an enum member, dict or str is
      refused. An enum member whose value is not a dict raises TypeError when that
      value is assigned as the attributes; otherwise only the RGBA check can raise. */
  function ColorAttrib(name: ColorInput, red: Value, green: Value, blue: Value, alpha: Value,
                       colors: map<string, map<string, Value>>): (r: Decision<map<string, Value>>)
    ensures name.ColorMember? ==> r == Accept(name.value)
    ensures name.ColorDict? ==> r == Accept(name.attrs)
    ensures name.OtherColorInput? ==> r == Reject
    ensures name.ColorOtherMember? ==> r == Raise(TypeError)
    ensures r.Raise? ==> name.NoColorName? || name.ColorOtherMember?
  {
    match name
    case NoColorName =>
      (match CheckComponents([red, green, blue, alpha])
       case Ok(true) =>
         Accept(RgbaAttrib(red, green, blue, alpha))
       case Ok(false) => Reject
       case Err(e) => Raise(e))
    case ColorMember(_, value) => Accept(value)
    case ColorOtherMember(_, _) => Raise(TypeError)
    case ColorDict(attrs) => Accept(attrs)
    case ColorNamed(n) =>
      if n in colors then Accept(colors[n]["name" := PyStr(n)]) else Reject
    case OtherColorInput => Reject
  }

  /** Without a colour name, the element is made exactly when all four components
      are valid. */
  lemma ColorAttribComponents(red: Value, green: Value, blue: Value, alpha: Value,
                              colors: map<string, map<string, Value>>)
    ensures ColorAttrib(NoColorName, red, green, blue, alpha, colors).Accept? <==>
              && ValidRgbValue(red) == Ok(true) && ValidRgbValue(green) == Ok(true)
              && ValidRgbValue(blue) == Ok(true) && ValidRgbValue(alpha) == Ok(true)
  {
    var components := [red, green, blue, alpha];
    assert ColorAttrib(NoColorName, red, green, blue, alpha, colors).Accept?
           <==> CheckComponents(components) == Ok(true);
    assert components[0] == red && components[1] == green;
    assert components[2] == blue && components[3] == alpha;
    assert (forall k :: 0 <= k < |components| ==> ValidRgbValue(components[k]) == Ok(true))
           <==> ValidRgbValue(components[0]) == Ok(true) && ValidRgbValue(components[1]) == Ok(true)
                && ValidRgbValue(components[2]) == Ok(true) && ValidRgbValue(components[3]) == Ok(true);
  }

  /** A made element holds exactly the four components, each as its `str()` text. */
  lemma ColorAttribComponentText(red: Value, green: Value, blue: Value, alpha: Value,
                                 colors: map<string, map<string, Value>>)
    requires ColorAttrib(NoColorName, red, green, blue, alpha, colors).Accept?
    ensures var r := ColorAttrib(NoColorName, red, green, blue, alpha, colors).value;
            && r.Keys == {"red", "green", "blue", "alpha"}
            && r["red"] == PyStr(Str(red)) && r["green"] == PyStr(Str(green))
            && r["blue"] == PyStr(Str(blue)) && r["alpha"] == PyStr(Str(alpha))
  {
    var m := RgbaAttrib(red, green, blue, alpha);
    assert m.Keys == {"red", "green", "blue", "alpha"};
  }

  /** Only a None component raises, and what it raises is TypeError; a None red
      raises before anything else is looked at. */
  lemma ColorAttribRaises(red: Value, green: Value, blue: Value, alpha: Value,
                          colors: map<string, map<string, Value>>)
    ensures ColorAttrib(NoColorName, red, green, blue, alpha, colors).Raise? ==>
              && (red.PyNone? || green.PyNone? || blue.PyNone? || alpha.PyNone?)
              && ColorAttrib(NoColorName, red, green, blue, alpha, colors).error == TypeError
    ensures red.PyNone? ==> ColorAttrib(NoColorName, red, green, blue, alpha, colors) == Raise(TypeError)
  {
    var components := [red, green, blue, alpha];
    assert components[0] == red && components[1] == green;
    assert components[2] == blue && components[3] == alpha;
  }

  /** A table name gives the table entry with `name` set to that name, and is
      refused exactly when the table has no such entry. */
  lemma ColorAttribNamed(colorName: string, red: Value, green: Value, blue: Value, alpha: Value,
                         colors: map<string, map<string, Value>>)
    ensures ColorAttrib(ColorNamed(colorName), red, green, blue, alpha, colors).Accept? <==>
              colorName in colors
    ensures colorName in colors ==>
              var r := ColorAttrib(ColorNamed(colorName), red, green, blue, alpha, colors).value;
              && r.Keys == colors[colorName].Keys + {"name"}
              && r["name"] == PyStr(colorName)
              && forall k :: k in colors[colorName] && k != "name" ==> r[k] == colors[colorName][k]
  {
  }

  /** The attributes `create_named_font_element` gives the new `font` element: an
      enum member's value or a dict as they are; a table name gives the table entry
      with its `style` upper-cased (KeyError without a style, AttributeError when the
      style is not a str); an enum member whose value is not a dict raises TypeError
      when that value is assigned as the attributes; a name missing from the table,
      or an input that is not an enum member, dict or str, is refused. */
  function FontAttrib(name: FontInput, fonts: map<string, map<string, Value>>): (r: Decision<map<string, Value>>)
    ensures name.FontMember? ==> r == Accept(name.value)
    ensures name.FontDict? ==> r == Accept(name.attrs)
    ensures name.FontNamed? ==> (r.Reject? <==> name.fontName !in fonts)
    ensures name.FontNamed? && name.fontName in fonts ==>
              (r == Raise(KeyError) <==> "style" !in fonts[name.fontName])
    ensures name.FontNamed? && name.fontName in fonts ==>
              (r == Raise(AttributeError) <==>
                 "style" in fonts[name.fontName] && !fonts[name.fontName]["style"].PyStr?)
    ensures name.FontNamed? && r.Accept? ==>
              && r.value.Keys == fonts[name.fontName].Keys
              && "style" in fonts[name.fontName] && fonts[name.fontName]["style"].PyStr?
              && r.value["style"] == PyStr(Upper(fonts[name.fontName]["style"].s))
              && forall k :: k in r.value && k != "style" ==> r.value[k] == fonts[name.fontName][k]
    ensures name.FontOtherMember? ==> r == Raise(TypeError)
    ensures name.OtherFontInput? ==> r == Reject
  {
    match name
    case FontMember(value) => Accept(value)
    case FontOtherMember(_) => Raise(TypeError)
    case FontDict(attrs) => Accept(attrs)
    case FontNamed(n) =>
      if n !in fonts then Reject
      else if "style" !in fonts[n] then Raise(KeyError)
      else if !fonts[n]["style"].PyStr? then Raise(AttributeError)
      else Accept(fonts[n]["style" := PyStr(Upper(fonts[n]["style"].s))])
    case OtherFontInput => Reject
  }

  /** The `font` element under the first `name` child of `parent`, if both exist. */
  function FontUnder(parent: Element, name: string): Option<Element>
    reads parent, parent.children
  {
    match Find(parent.children, name)
    case None => None
    case Some(holder) => Find(holder.children, "font")
  }

  /** The children of the first `name` child of `parent`; none when it is missing. */
  function HolderChildren(parent: Element, name: string): seq<Element>
    reads parent, parent.children
  {
    match Find(parent.children, name)
    case None => []
    case Some(holder) => holder.children
  }

  /** The objects `add_font_style` may change below `parent`: the first `name` child
      and the `font` element under it. */
  function FontFrame(parent: Element, name: string): set<Element>
    reads parent, parent.children
  {
    Found(parent.children, name)
    + match FontUnder(parent, name) case None => {} case Some(font) => {font}
  }

  /** `parent` got the fresh, empty element `e` for property `propType` with the
      text of `val`, by the replace-or-append rule. */
  twostate predicate WroteProperty(parent: Element, new e: Element, propType: string, val: Value)
    reads parent, e
  {
    && fresh(e) && e.tag == propType && e.text == ElementText(val)
    && e.attrib == map[] && e.children == []
    && parent.children == ReplaceOrAppend(old(parent.children), e)
  }

  /** `_SharedPropertyFunctions`: the helper object behind every widget and screen,
      holding the root element and the colour and font tables. */
  class PropertyHelper {
    const root: Element
    const predefinedColors: map<string, map<string, Value>>
    const predefinedFonts: map<string, map<string, Value>>

    /** `__init__`: keeps the root element and the tables it is given. */
    constructor (root: Element, predefinedColors: map<string, map<string, Value>>,
                 predefinedFonts: map<string, map<string, Value>>)
      ensures this.root == root
      ensures this.predefinedColors == predefinedColors && this.predefinedFonts == predefinedFonts
    {
      this.root := root;
      this.predefinedColors := predefinedColors;
      this.predefinedFonts := predefinedFonts;
    }

    /** The element `add_macro` works under: the one given, or the root. */
    function MacroTarget(rootElem: Option<Element>): Element {
      if rootElem.None? then root else rootElem.value
    }

    /** `add_macro`: finds the `macros` child of the target or appends a new one,
        then appends to it a new element tagged `name` whose text is `str(val)`.
        Nothing else changes. */
    method AddMacro(name: string, val: Value, rootElem: Option<Element>)
      returns (ghost macros: Element, ghost macro: Element)
      requires Find(MacroTarget(rootElem).children, "macros") != Some(MacroTarget(rootElem))
      modifies MacroTarget(rootElem)`children, Found(MacroTarget(rootElem).children, "macros")
      ensures Find(MacroTarget(rootElem).children, "macros") == Some(macros)
      ensures fresh(macro) && macro.tag == name && macro.text == Some(Str(val))
      ensures macro.attrib == map[] && macro.children == []
      ensures old(Find(MacroTarget(rootElem).children, "macros")).Some? ==>
                && macros == old(Find(MacroTarget(rootElem).children, "macros")).value
                && MacroTarget(rootElem).children == old(MacroTarget(rootElem).children)
                && macros.children == old(HolderChildren(MacroTarget(rootElem), "macros")) + [macro]
                && unchanged(macros`text, macros`attrib)
      ensures old(Find(MacroTarget(rootElem).children, "macros")).None? ==>
                && fresh(macros) && macros.text == None && macros.attrib == map[]
                && MacroTarget(rootElem).children == old(MacroTarget(rootElem).children) + [macros]
                && macros.children == [macro]
    {
      var text := Str(val);
      var target := if rootElem.None? then root else rootElem.value;
      var rootMacro := Find(target.children, "macros");
      var m: Element;
      if rootMacro.None? {
        m := new Element("macros");
        target.children := target.children + [m];
        FirstIndexAfterAbsent(old(target.children), m);
      } else {
        m := rootMacro.value;
      }
      var e := new Element(name);
      m.children := m.children + [e];
      e.text := Some(text);
      macros, macro := m, e;
    }

    /** `generic_property`: the replace-or-append rule. The first child of `parent`
        tagged `propType` is removed and a fresh element with that tag and the text of
        `val` is appended at the end. */
    method GenericProperty(parent: Element, propType: string, val: Value) returns (ghost e: Element)
      modifies parent`children
      ensures WroteProperty(parent, e, propType, val)
    {
      var element := CreateElement(parent, propType, val);
      parent.children := parent.children + [element];
      e := element;
    }

    /** `integer_property`: writes `int(val)` for an int or a bool, and otherwise
        refuses with a message and leaves `parent` unchanged. */
    method IntegerProperty(parent: Element, propType: string, val: Value)
      returns (outcome: Outcome, ghost e: Element?)
      modifies parent`children
      ensures outcome == OutcomeOf(IntegerArg(val))
      ensures outcome != Done ==> parent.children == old(parent.children)
      ensures outcome == Done ==> e != null && WroteProperty(parent, e, propType, IntegerArg(val).value)
    {
      if val.PyInt? || val.PyBool? {
        var n := if val.PyInt? then val.i else if val.b then 1 else 0;
        e := GenericProperty(parent, propType, PyInt(n));
        outcome := Done;
      } else {
        e := null;
        outcome := Rejected;
      }
    }

    /** `number_property`: writes an int or a bool as given (a bool through
        `create_element`, so as `true`/`false`), and otherwise refuses with a message
        and leaves `parent` unchanged. */
    method NumberProperty(parent: Element, propType: string, val: Value)
      returns (outcome: Outcome, ghost e: Element?)
      modifies parent`children
      ensures outcome == OutcomeOf(NumberArg(val))
      ensures outcome != Done ==> parent.children == old(parent.children)
      ensures outcome == Done ==> e != null && WroteProperty(parent, e, propType, val)
    {
      if val.PyInt? || val.PyBool? {
        e := GenericProperty(parent, propType, val);
        outcome := Done;
      } else {
        e := null;
        outcome := Rejected;
      }
    }

    /** `boolean_property`: writes `true` or `false` as `BooleanArg` decides; a
        string that is neither is refused and leaves `parent` unchanged, and None
        raises AttributeError, also leaving `parent` unchanged. */
    method BooleanProperty(parent: Element, propType: string, val: Value)
      returns (outcome: Outcome, ghost e: Element?)
      modifies parent`children
      ensures outcome == OutcomeOf(BooleanArg(val))
      ensures outcome != Done ==> parent.children == old(parent.children)
      ensures outcome == Done ==> e != null && WroteProperty(parent, e, propType, BooleanArg(val).value)
    {
      e := null;
      if val.PyBool? {
        e := GenericProperty(parent, propType, PyStr(Lower(Str(val))));
        outcome := Done;
      } else if val.PyInt? {
        e := GenericProperty(parent, propType, PyStr(Lower(Str(PyBool(val.i != 0)))));
        outcome := Done;
      } else if !val.PyStr? {
        outcome := Raised(AttributeError);
      } else if Lower(val.s) == "true" || Lower(val.s) == "false" {
        e := GenericProperty(parent, propType, PyStr(Lower(val.s)));
        outcome := Done;
      } else {
        outcome := Rejected;
      }
    }

    /** `create_element`: removes the first child of `parent` tagged `propType`, if
        any, and returns a fresh element with that tag, no children, no attributes
        and the text `ElementText(val)`. The new element is not attached. */
    method CreateElement(parent: Element, propType: string, val: Value) returns (element: Element)
      modifies parent`children
      ensures fresh(element) && element.tag == propType && element.text == ElementText(val)
      ensures element.attrib == map[] && element.children == []
      ensures parent.children == WithoutFirst(old(parent.children), propType)
    {
      var found := Find(parent.children, propType);
      if found.Some? {
        RemoveFound(parent.children, propType);
        parent.children := Remove(parent.children, found.value);
      }
      element := new Element(propType);
      if !val.PyNone? {
        if val.PyBool? {
          element.text := Some(Lower(Str(val)));
        } else {
          element.text := Some(Str(val));
        }
      }
    }

    /** `create_color_element`: first removes the first `color` child of the ROOT
        (not of `rootColorElem`), then builds the new `color` element's attributes as
        `ColorAttrib` decides. If that refuses or raises, the removal stays and nothing
        is appended; otherwise the new element is appended to `rootColorElem`, and
        `rootColorElem` to the root when `addToRoot` is set. */
    method CreateColorElement(rootColorElem: Element, name: ColorInput, red: Value, green: Value,
                              blue: Value, alpha: Value, addToRoot: bool)
      returns (outcome: Outcome, ghost sub: Element?)
      modifies root`children, rootColorElem`children
      ensures outcome == OutcomeOf(ColorAttrib(name, red, green, blue, alpha, predefinedColors))
      ensures outcome != Done ==>
                && root.children == WithoutFirst(old(root.children), "color")
                && (rootColorElem != root ==> rootColorElem.children == old(rootColorElem.children))
      ensures outcome == Done ==>
                && sub != null && fresh(sub) && sub.tag == "color" && sub.text == None && sub.children == []
                && sub.attrib == ColorAttrib(name, red, green, blue, alpha, predefinedColors).value
      ensures outcome == Done && rootColorElem != root ==>
                && rootColorElem.children == old(rootColorElem.children) + [sub]
                && root.children == WithoutFirst(old(root.children), "color")
                                    + (if addToRoot then [rootColorElem] else [])
      ensures outcome == Done && rootColorElem == root ==>
                root.children == WithoutFirst(old(root.children), "color") + [sub]
                                 + (if addToRoot then [root] else [])
    {
      var subE := CreateElement(root, "color", PyNone);
      var attrib := ColorAttribFor(name, red, green, blue, alpha);
      if !attrib.Accept? {
        return OutcomeOf(attrib), null;
      }
      subE.attrib := attrib.value;
      AttachColor(rootColorElem, subE, addToRoot);
      outcome, sub := Done, subE;
    }

    /** The appending step of `create_color_element`: the new element goes under
        `rootColorElem`, and `rootColorElem` under the root when `addToRoot` is set;
        when `rootColorElem` is the root itself both land on the root's list. */
    method AttachColor(rootColorElem: Element, subE: Element, addToRoot: bool)
      modifies root`children, rootColorElem`children
      ensures rootColorElem != root ==>
                && rootColorElem.children == old(rootColorElem.children) + [subE]
                && root.children == old(root.children) + (if addToRoot then [rootColorElem] else [])
      ensures rootColorElem == root ==>
                root.children == old(root.children) + [subE] + (if addToRoot then [root] else [])
    {
      rootColorElem.children := rootColorElem.children + [subE];
      if addToRoot {
        root.children := root.children + [rootColorElem];
      }
    }

    /** The attribute step of `create_color_element`, as the source runs it: the
        components are checked one by one and the first invalid one decides; an enum
        member's name is written and then replaced by its value; a table entry gets
        `name` added. */
    method ColorAttribFor(name: ColorInput, red: Value, green: Value, blue: Value, alpha: Value)
      returns (r: Decision<map<string, Value>>)
      ensures r == ColorAttrib(name, red, green, blue, alpha, predefinedColors)
    {
      var attrib: map<string, Value> := map[];
      match name {
        case NoColorName =>
          var components := [red, green, blue, alpha];
          var k := 0;
          while k < |components|
            invariant 0 <= k <= |components|
            invariant CheckComponents(components) == CheckComponents(components[k..])
          {
            var valid := ValidRgbValue(components[k]);
            if valid.Err? {
              return Raise(valid.error);
            }
            if !valid.value {
              return Reject;
            }
            assert components[k..][1..] == components[k + 1..];
            k := k + 1;
          }
          attrib := map["red" := PyStr(Str(red)), "blue" := PyStr(Str(blue)),
                        "green" := PyStr(Str(green)), "alpha" := PyStr(Str(alpha))];
        case ColorMember(memberName, value) =>
          attrib := attrib["name" := PyStr(memberName)];
          attrib := value;
        case ColorOtherMember(memberName, _) =>
          attrib := attrib["name" := PyStr(memberName)];
          return Raise(TypeError);
        case ColorDict(attrs) =>
          attrib := attrs;
        case ColorNamed(n) =>
          if n !in predefinedColors {
            return Reject;
          }
          attrib := predefinedColors[n];
          attrib := attrib["name" := PyStr(n)];
        case OtherColorInput =>
          return Reject;
      }
      return Accept(attrib);
    }

    /** `get_font_element`: finds the first `fontElemName` child of `rootElem` or
        appends a fresh one, then finds its `font` child or appends a fresh one with
        the default attributes, and returns that `font` element. When both already
        exist nothing changes, so a second call is a no-op. */
    method GetFontElement(rootElem: Element, fontElemName: string)
      returns (font: Element, ghost holder: Element)
      requires Find(rootElem.children, fontElemName) != Some(rootElem)
      modifies rootElem`children, Found(rootElem.children, fontElemName)
      ensures Find(rootElem.children, fontElemName) == Some(holder)
      ensures FontUnder(rootElem, fontElemName) == Some(font)
      ensures old(Find(rootElem.children, fontElemName)).Some? ==>
                && holder == old(Find(rootElem.children, fontElemName)).value
                && rootElem.children == old(rootElem.children)
                && unchanged(holder`text, holder`attrib)
      ensures old(Find(rootElem.children, fontElemName)).None? ==>
                && fresh(holder) && holder.text == None && holder.attrib == map[]
                && rootElem.children == old(rootElem.children) + [holder]
      ensures old(FontUnder(rootElem, fontElemName)).Some? ==>
                && font == old(FontUnder(rootElem, fontElemName)).value
                && holder.children == old(HolderChildren(rootElem, fontElemName))
      ensures old(FontUnder(rootElem, fontElemName)).None? ==>
                && fresh(font) && font.tag == "font" && font.text == None
                && font.attrib == DefaultFont && font.children == []
                && holder.children == old(HolderChildren(rootElem, fontElemName)) + [font]
    {
      var fontRootElem := Find(rootElem.children, fontElemName);
      var h: Element;
      if fontRootElem.None? {
        h := CreateElement(rootElem, fontElemName, PyNone);
        rootElem.children := rootElem.children + [h];
        FirstIndexAfterAbsent(old(rootElem.children), h);
      } else {
        h := fontRootElem.value;
      }
      var childFontElem := Find(h.children, "font");
      if childFontElem.None? {
        var f := new Element("font");
        f.attrib := DefaultFont;
        FirstIndexAfterAbsent(h.children, f);
        h.children := h.children + [f];
        font := f;
      } else {
        font := childFontElem.value;
      }
      holder := h;
    }

    /** `add_font_style`: for a `FontStyle` member, gets the font element as
        `get_font_element` does and sets its `style` attribute to the member's value,
        keeping its other attributes; any other argument is refused and changes
        nothing. */
    method AddFontStyle(rootElem: Element, fontElemName: string, val: StyleArg)
      returns (outcome: Outcome, ghost holder: Element?, ghost font: Element?)
      requires Find(rootElem.children, fontElemName) != Some(rootElem)
      modifies rootElem`children, FontFrame(rootElem, fontElemName)
      ensures val.NotAStyle? ==> outcome == Rejected && unchanged(rootElem) && unchanged(old(FontFrame(rootElem, fontElemName)))
      ensures val.StyleMember? ==>
                && outcome == Done && holder != null && font != null
                && Find(rootElem.children, fontElemName) == Some(holder)
                && FontUnder(rootElem, fontElemName) == Some(font)
      ensures val.StyleMember? && old(Find(rootElem.children, fontElemName)).Some? ==>
                && holder == old(Find(rootElem.children, fontElemName)).value
                && rootElem.children == old(rootElem.children)
                && unchanged(holder`text)
                && (holder != font ==> unchanged(holder`attrib))
      ensures val.StyleMember? && old(Find(rootElem.children, fontElemName)).None? ==>
                && fresh(holder) && holder.text == None && holder.attrib == map[]
                && rootElem.children == old(rootElem.children) + [holder]
      ensures val.StyleMember? && old(FontUnder(rootElem, fontElemName)).Some? ==>
                && font == old(FontUnder(rootElem, fontElemName)).value
                && holder.children == old(HolderChildren(rootElem, fontElemName))
                && font.attrib == old(font.attrib)["style" := PyStr(val.style.Value())]
                && unchanged(font`text, font`children)
      ensures val.StyleMember? && old(FontUnder(rootElem, fontElemName)).None? ==>
                && fresh(font) && font.tag == "font" && font.text == None && font.children == []
                && font.attrib == DefaultFont["style" := PyStr(val.style.Value())]
                && holder.children == old(HolderChildren(rootElem, fontElemName)) + [font]
    {
      if val.NotAStyle? {
        return Rejected, null, null;
      }
      var childElem, h := GetFontElement(rootElem, fontElemName);
      childElem.attrib := childElem.attrib["style" := PyStr(val.style.Value())];
      outcome, holder, font := Done, h, childElem;
    }

    /** `create_named_font_element`: removes the first `fontElemName` child of
        `rootElem`, builds a fresh `fontElemName` element holding a fresh `font`
        element whose attributes `FontAttrib` decides, and appends it to the ROOT (not
        to `rootElem`). If `FontAttrib` refuses or raises, the removal stays and
        nothing is appended. */
    method CreateNamedFontElement(rootElem: Element, fontElemName: string, name: FontInput)
      returns (outcome: Outcome, ghost holder: Element?, ghost font: Element?)
      modifies rootElem`children, root`children
      ensures outcome == OutcomeOf(FontAttrib(name, predefinedFonts))
      ensures outcome != Done ==>
                && rootElem.children == WithoutFirst(old(rootElem.children), fontElemName)
                && (root != rootElem ==> root.children == old(root.children))
      ensures outcome == Done ==>
                && holder != null && font != null && fresh(holder) && fresh(font)
                && holder.tag == fontElemName && holder.text == None && holder.attrib == map[]
                && holder.children == [font]
                && font.tag == "font" && font.text == None && font.children == []
                && font.attrib == FontAttrib(name, predefinedFonts).value
      ensures outcome == Done && root != rootElem ==>
                && rootElem.children == WithoutFirst(old(rootElem.children), fontElemName)
                && root.children == old(root.children) + [holder]
      ensures outcome == Done && root == rootElem ==>
                root.children == WithoutFirst(old(root.children), fontElemName) + [holder]
    {
      holder, font := null, null;
      var rootFontElem := CreateElement(rootElem, fontElemName, PyNone);
      var childFontElem := CreateElement(rootFontElem, "font", PyNone);
      var fontAttrib: map<string, Value>;
      match name {
        case FontMember(value) =>
          fontAttrib := value;
        case FontOtherMember(_) =>
          return Raised(TypeError), null, null;
        case FontDict(attrs) =>
          fontAttrib := attrs;
        case FontNamed(n) =>
          if n !in predefinedFonts {
            return Rejected, null, null;
          }
          fontAttrib := predefinedFonts[n];
          if "style" !in fontAttrib {
            return Raised(KeyError), null, null;
          }
          var style := fontAttrib["style"];
          if !style.PyStr? {
            return Raised(AttributeError), null, null;
          }
          fontAttrib := fontAttrib["style" := PyStr(Upper(style.s))];
        case OtherFontInput =>
          return Rejected, null, null;
      }
      childFontElem.attrib := fontAttrib;
      rootFontElem.children := rootFontElem.children + [childFontElem];
      root.children := root.children + [rootFontElem];
      outcome, holder, font := Done, rootFontElem, childFontElem;
    }
  }
}

/** The name handling of metadata.cpp: the decimal-integer key test, the
    mangling of labels into C identifiers, and the name tables of the widget
    types and scales. */
module Names {
  import opened Text
  import opened MetadataModel

  /** An optional leading '-' followed by one or more ASCII digits. */
  predicate IsDecInt(s: string) {
    (|s| >= 1 && AllDigits(s)) || (|s| >= 2 && s[0] == '-' && AllDigits(s[1..]))
  }

  /** `is_decint_string`: strip one leading '-', then demand a non-empty run
      of digits. */
  method IsDecIntString(str: string) returns (b: bool)
    ensures b <==> IsDecInt(str)
  {
    var s := str;
    if |s| > 0 && s[0] == '-' {
      s := s[1..];
    }
    if |s| == 0 {
      return false;
    }
    var i := 0;
    while i < |s|
      invariant 0 <= i <= |s|
      invariant forall k :: 0 <= k < i ==> IsDigit(s[k])
    {
      var c := s[i];
      if c < '0' || c > '9' {
        assert !AllDigits(s);
        assert !AllDigits(str) by { if |str| > 0 && str[0] == '-' { assert !IsDigit(str[0]); } }
        return false;
      }
      i := i + 1;
    }
    return true;
  }

  /** Keys that are never decimal integers, so the metadata filter keeps them. */
  lemma InterpretedKeysAreNotDecInt()
    ensures !IsDecInt("unit") && !IsDecInt("scale") && !IsDecInt("tooltip")
  {
    assert !IsDigit("unit"[0]) && !IsDigit("unit"[1]);
    assert !IsDigit("scale"[0]) && !IsDigit("scale"[1]);
    assert !IsDigit("tooltip"[0]) && !IsDigit("tooltip"[1]);
  }

  /** A character allowed in a C identifier. */
  predicate IsIdentChar(c: char) {
    IsLetter(c) || IsDigit(c) || c == '_'
  }

  /** What `mangle` writes for character `c`; `leading` is true at index 0. */
  function MangleChar(c: char, leading: bool): char {
    if !IsLetter(c) && (!IsDigit(c) || leading) then '_' else c
  }

  /** The identifier `mangle` derives from `name`: same length, letters kept
      everywhere, digits kept except at the first position, everything else
      an underscore. */
  function Mangled(name: string): (id: string)
    ensures |id| == |name|
    ensures forall i :: 0 <= i < |id| ==> IsIdentChar(id[i])
    ensures |id| > 0 ==> !IsDigit(id[0])
    ensures forall i :: 0 <= i < |name| && IsLetter(name[i]) ==> id[i] == name[i]
    ensures forall i :: 0 < i < |name| && IsDigit(name[i]) ==> id[i] == name[i]
    ensures forall i :: 0 <= i < |name| && !IsLetter(name[i]) && (!IsDigit(name[i]) || i == 0) ==> id[i] == '_'
  {
    seq(|name|, i requires 0 <= i < |name| => MangleChar(name[i], i == 0))
  }

  /** `mangle`, which builds the identifier one `push_back` at a time. */
  method Mangle(name: string) returns (id: string)
    ensures id == Mangled(name)
  {
    id := [];
    var n := |name|;
    for i := 0 to n
      invariant |id| == i
      invariant forall k :: 0 <= k < i ==> id[k] == Mangled(name)[k]
    {
      var c := name[i];
      var al := ('a' <= c <= 'z') || ('A' <= c <= 'Z');
      var num := '0' <= c <= '9';
      c := if !al && (!num || i == 0) then '_' else c;
      id := id + [c];
    }
  }

  /** Mangling an identifier changes nothing: `mangle` is idempotent. */
  lemma MangledIdempotent(name: string)
    ensures Mangled(Mangled(name)) == Mangled(name)
  {
    var m := Mangled(name);
    forall i | 0 <= i < |m|
      ensures Mangled(m)[i] == m[i]
    {
      if IsLetter(m[i]) {
      } else if IsDigit(m[i]) {
        assert i > 0;
      } else {
        assert m[i] == '_';
      }
    }
  }

  /** An accessor name `mangle(prefix + label)` keeps a prefix of letters and
      underscores and then treats every character of the label as a
      non-leading one: two labels that mangle alike give the same name. */
  lemma MangledAccessorName(prefix: string, labelText: string)
    requires |prefix| > 0 && IsLetter(prefix[0])
    requires forall i :: 0 <= i < |prefix| ==> IsLetter(prefix[i]) || prefix[i] == '_'
    ensures Mangled(prefix + labelText)[..|prefix|] == prefix
    ensures forall i :: 0 <= i < |labelText| ==>
      Mangled(prefix + labelText)[|prefix| + i] == MangleChar(labelText[i], false)
  {
    var s := prefix + labelText;
    forall i | 0 <= i < |labelText|
      ensures Mangled(s)[|prefix| + i] == MangleChar(labelText[i], false)
    {
      assert s[|prefix| + i] == labelText[i];
    }
  }

  /** Distinct labels can give the same accessor: the generated header does
      not deduplicate them. */
  lemma AccessorNamesCanCollide()
    ensures "a b" != "a_b" && Mangled("get_a b") == Mangled("get_a_b")
  {
    assert "a b"[1] != "a_b"[1];
    var x, y := Mangled("get_a b"), Mangled("get_a_b");
    assert |x| == |y| == 7;
    forall i | 0 <= i < 7 ensures x[i] == y[i] {
      assert "get_a b"[i] == "get_a_b"[i] || i == 5;
    }
  }

  /** The words `operator<<` prints for each widget type. */
  function TypeName(t: WidgetType): string {
    match t
    case Button => "button"
    case CheckBox => "checkbox"
    case VSlider => "vslider"
    case HSlider => "hslider"
    case NEntry => "nentry"
    case VBarGraph => "vbargraph"
    case HBarGraph => "hbargraph"
  }

  /** `type_from_name`: exactly the seven printed names are recognised, each
      as the type that prints it; `None` stands for `(Type)-1`. */
  function TypeFromName(name: string): (r: Option<WidgetType>)
    ensures r.Some? ==> TypeName(r.value) == name
    ensures r.None? ==> forall t: WidgetType :: TypeName(t) != name
  {
    if name == "button" then Some(Button)
    else if name == "checkbox" then Some(CheckBox)
    else if name == "vslider" then Some(VSlider)
    else if name == "hslider" then Some(HSlider)
    else if name == "nentry" then Some(NEntry)
    else if name == "vbargraph" then Some(VBarGraph)
    else if name == "hbargraph" then Some(HBarGraph)
    else None
  }

  /** Printing a type and reading the name back gives the type again. */
  lemma TypeNameRoundTrip(t: WidgetType)
    ensures TypeFromName(TypeName(t)) == Some(t)
  {
  }

  /** The words `operator<<` prints for each scale. */
  function ScaleName(s: Scale): string {
    match s
    case Linear => "linear"
    case Log => "log"
    case Exp => "exp"
  }

  /** `scale_from_name`: only "log" and "exp" are recognised; `None` stands
      for `(Scale)-1`, which is also what "linear" gives. */
  function ScaleFromName(name: string): (r: Option<Scale>)
    ensures r.Some? <==> name == "log" || name == "exp"
    ensures r.Some? ==> r.value != Linear && ScaleName(r.value) == name
  {
    if name == "log" then Some(Log)
    else if name == "exp" then Some(Exp)
    else None
  }

  /** The scale `extract_widget` stores for a `scale` value: an unrecognised
      value (a warning in the source) falls back to Linear. */
  function InterpretScale(value: string): (s: Scale)
    ensures s == Linear <==> value != "log" && value != "exp"
  {
    ScaleFromName(value).GetOr(Linear)
  }

  /** Every printed scale name is read back as that scale, "linear" through
      the fallback. */
  lemma ScaleNameRoundTrip(s: Scale)
    ensures InterpretScale(ScaleName(s)) == s
  {
  }
}

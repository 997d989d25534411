/** The older property store (src/traits/property_list.rs): only string,
    float and int properties, and no transform. Its parsers and its
    get-with-default are those of module PropertyList. */
module SimplePropertyList {
  import opened Wrappers
  import opened ExtReal
  import PL = PropertyList

  /** Every field of the older property list, as one value. */
  datatype Props<O> = Props(children: seq<O>, strings: map<string, string>,
                            floats: map<string, Float>, ints: map<string, PL.Int32>)

  /** PropertyList::is_property_type (traits/property_list.rs:22-29). */
  function IsPropertyType(name: string): (r: bool)
    ensures r <==> name in {"string", "float", "int"}
  {
    match name
    case "string" => true
    case "float" => true
    case "int" => true
    case _ => false
  }

  /** PropertyList::is_property_valid (traits/property_list.rs:31-36): one
      of the three types, with both "name" and "value". */
  function IsPropertyValid(name: string, attrs: map<string, string>): (r: bool)
    ensures r <==> IsPropertyType(name) && "name" in attrs && "value" in attrs
  {
    match name
    case "string" => "name" in attrs && "value" in attrs
    case "float" => "name" in attrs && "value" in attrs
    case "int" => "name" in attrs && "value" in attrs
    case _ => false
  }

  /** What the older is_property_valid accepts, the newer one accepts too. */
  lemma ValidInNewerStore(name: string, attrs: map<string, string>)
    requires IsPropertyValid(name, attrs)
    ensures PL.IsPropertyValid(name, attrs)
  {
  }

  /** What add_property does to the fields (traits/property_list.rs:38-55):
      it panics (None) exactly when "name" or "value" is missing, whatever
      the type; it never touches the children. */
  function AddedProperty<O>(s: Props<O>, pType: string, attrs: map<string, string>, parse: PL.Parsers): (r: Option<Props<O>>)
    ensures r.None? <==> "name" !in attrs || "value" !in attrs
    ensures r.Some? ==> r.value.children == s.children
  {
    if "name" !in attrs || "value" !in attrs then None
    else
      var key, value := attrs["name"], attrs["value"];
      match pType
      case "string" => Some(s.(strings := s.strings[key := value]))
      case "int" =>
        (match parse.int32(value)
         case Some(n) => Some(s.(ints := s.ints[key := n]))
         case None => Some(s))
      case "float" =>
        (match parse.float32(value)
         case Some(x) => Some(s.(floats := s.floats[key := x]))
         case None => Some(s))
      case _ => Some(s)
  }

  /** An unparsable int or float, and an unknown type, change nothing. */
  lemma IgnoredProperties<O>(s: Props<O>, pType: string, attrs: map<string, string>, parse: PL.Parsers)
    requires "name" in attrs && "value" in attrs
    requires !IsPropertyType(pType) ||
             (pType == "int" && parse.int32(attrs["value"]).None?) ||
             (pType == "float" && parse.float32(attrs["value"]).None?)
    ensures AddedProperty(s, pType, attrs, parse) == Some(s)
  {
  }

  /** On its three types the older store records exactly what the newer one
      does in the same maps. */
  lemma AgreesWithNewerStore<O>(s: Props<O>, t: PL.Props<O>, pType: string, attrs: map<string, string>, parse: PL.Parsers)
    requires IsPropertyValid(pType, attrs)
    requires s.strings == t.strings && s.floats == t.floats && s.ints == t.ints
    ensures SameMaps(AddedProperty(s, pType, attrs, parse), PL.AddedProperty(t, pType, attrs, parse))
  {
    var key, value := attrs["name"], attrs["value"];
    if pType == "string" {
      assert PL.AddedProperty(t, pType, attrs, parse) == Some(t.(strings := t.strings[key := value]));
      assert AddedProperty(s, pType, attrs, parse) == Some(s.(strings := s.strings[key := value]));
    } else if pType == "int" {
      assert PL.AddedProperty(t, pType, attrs, parse) == PL.StoredValue(t, PL.IntKind, key, value, parse);
      AgreeOnNumber(s, t, pType, attrs, parse);
    } else {
      assert PL.AddedProperty(t, pType, attrs, parse) == PL.StoredValue(t, PL.FloatKind, key, value, parse);
      AgreeOnNumber(s, t, pType, attrs, parse);
    }
  }

  predicate SameMaps<O>(r: Option<Props<O>>, q: Option<PL.Props<O>>)
  {
    r.Some? && q.Some? &&
    r.value.strings == q.value.strings && r.value.floats == q.value.floats && r.value.ints == q.value.ints
  }

  /** An int or float property is recorded in the same map by both stores,
      or ignored by both when its value does not parse. */
  lemma AgreeOnNumber<O>(s: Props<O>, t: PL.Props<O>, pType: string, attrs: map<string, string>, parse: PL.Parsers)
    requires pType == "int" || pType == "float"
    requires "name" in attrs && "value" in attrs
    requires s.strings == t.strings && s.floats == t.floats && s.ints == t.ints
    ensures SameMaps(AddedProperty(s, pType, attrs, parse),
                     PL.StoredValue(t, if pType == "int" then PL.IntKind else PL.FloatKind, attrs["name"], attrs["value"], parse))
  {
    var value := attrs["value"];
    if pType == "int" {
      if parse.int32(value).Some? {
      } else {
      }
    } else {
      if parse.float32(value).Some? {
      } else {
      }
    }
  }

  class PropertyList<O> {
    var children: seq<O>
    var strings: map<string, string>
    var floats: map<string, Float>
    var ints: map<string, PL.Int32>

    ghost function State(): Props<O>
      reads this
    {
      Props(children, strings, floats, ints)
    }

    /** PropertyList::new (traits/property_list.rs:12-20). */
    constructor ()
      ensures State() == Props([], map[], map[], map[])
    {
      children := [];
      strings, floats, ints := map[], map[], map[];
    }

    /** PropertyList::add_property (traits/property_list.rs:38-55); ok is
        false where the source panics. */
    method AddProperty(pType: string, attrs: map<string, string>, parse: PL.Parsers) returns (ok: bool)
      modifies this
      ensures ok <==> AddedProperty(old(State()), pType, attrs, parse).Some?
      ensures ok ==> State() == AddedProperty(old(State()), pType, attrs, parse).value
    {
      if "name" !in attrs || "value" !in attrs {
        return false;
      }
      var key, value := attrs["name"], attrs["value"];
      ok := true;
      if pType == "string" {
        SetString(key, value);
      } else if pType == "int" {
        var n := parse.int32(value);
        if n.Some? {
          SetInt(key, n.value);
        }
      } else if pType == "float" {
        var x := parse.float32(value);
        if x.Some? {
          SetFloat(key, x.value);
        }
      }
    }

    /** PropertyList::add_child (traits/property_list.rs:57-59). */
    method AddChild(child: O)
      modifies this`children
      ensures children == old(children) + [child]
    {
      children := children + [child];
    }

    /** The setters (traits/property_list.rs:61-71). */
    method SetString(k: string, v: string)
      modifies this`strings
      ensures State() == old(State()).(strings := old(strings)[k := v])
    {
      strings := strings[k := v];
    }

    method SetFloat(k: string, v: Float)
      modifies this`floats
      ensures State() == old(State()).(floats := old(floats)[k := v])
    {
      floats := floats[k := v];
    }

    method SetInt(k: string, v: PL.Int32)
      modifies this`ints
      ensures State() == old(State()).(ints := old(ints)[k := v])
    {
      ints := ints[k := v];
    }

    /** The getters (traits/property_list.rs:73-83). */
    function GetString(k: string, default: string): string
      reads this
    {
      PL.Lookup(strings, k, default)
    }

    function GetFloat(k: string, default: Float): Float
      reads this
    {
      PL.Lookup(floats, k, default)
    }

    function GetInt(k: string, default: PL.Int32): PL.Int32
      reads this
    {
      PL.Lookup(ints, k, default)
    }
  }
}

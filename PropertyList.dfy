/** The scene reader's property store (src/utils/property_list.rs): typed
    key-to-value maps filled from XML attribute maps, the list of child
    objects, and the accumulated transform. Parsing a string into an i32,
    an f32 or a 2- or 3-vector is the concrete code of other files and
    enters as the oracles of `Parsers`; the transform matrix is kept
    abstractly as its factors, newest first, so that left-multiplying by a
    new transform puts it in front and the identity is the empty list. */
module PropertyList {
  import opened Wrappers
  import opened ExtReal
  import opened Bounds

  type Int32 = x: int | -0x8000_0000 <= x < 0x8000_0000

  /** str::parse::<i32>, str::parse::<f32> and the init_string parsers of
      the 2- and 3-vector types. */
  datatype Parsers = Parsers(int32: string -> Option<Int32>, float32: string -> Option<Float>,
                             vec2: string -> Vec2, vec3: string -> Vec3)

  /** One factor of the transform matrix. */
  datatype TransformStep = Scale(v: Vec3) | Translate(v: Vec3) | Rotate(angle: Float, axis: Vec3)

  /** Every field of a property list, as one value. */
  datatype Props<O> = Props(children: seq<O>,
                            strings: map<string, string>, floats: map<string, Float>,
                            ints: map<string, Int32>, bools: map<string, bool>,
                            point2s: map<string, Vec2>, point3s: map<string, Vec3>,
                            vector2s: map<string, Vec2>, vector3s: map<string, Vec3>,
                            transform: seq<TransformStep>)

  /** The property kinds add_property tells apart by name. */
  datatype Kind = StringKind | FloatKind | IntKind | BoolKind
                | Point2Kind | Point3Kind | Vector2Kind | Vector3Kind
                | ScaleKind | TranslateKind | RotateKind | Unknown
  {
    predicate IsValue()
    {
      !IsTransform() && !Unknown?
    }

    predicate IsTransform()
    {
      ScaleKind? || TranslateKind? || RotateKind?
    }
  }

  /** The kind a type name selects in the source's matches. */
  function KindOf(name: string): Kind
  {
    match name
    case "string" => StringKind
    case "float" => FloatKind
    case "int" => IntKind
    case "bool" => BoolKind
    case "point2" => Point2Kind
    case "point3" => Point3Kind
    case "vector2" => Vector2Kind
    case "vector3" => Vector3Kind
    case "scale" => ScaleKind
    case "translate" => TranslateKind
    case "rotate" => RotateKind
    case _ => Unknown
  }

  /** PropertyList::is_property_type (property_list.rs:35-50): the eight
      value kinds and the three transform kinds. */
  function IsPropertyType(name: string): (r: bool)
    ensures r <==> name in {"string", "float", "int", "bool", "point2", "point3", "vector2", "vector3",
                            "scale", "translate", "rotate"}
  {
    !KindOf(name).Unknown?
  }

  /** PropertyList::is_property_valid (property_list.rs:52-60): a value
      kind needs "name" and "value", scale and translate need "value",
      rotate needs "axis" and "angle"; every valid kind is a property
      type. */
  function IsPropertyValid(name: string, attrs: map<string, string>): (r: bool)
    ensures r ==> IsPropertyType(name)
    ensures KindOf(name).IsValue() ==> (r <==> "name" in attrs && "value" in attrs)
    ensures name == "scale" || name == "translate" ==> (r <==> "value" in attrs)
    ensures name == "rotate" ==> (r <==> "axis" in attrs && "angle" in attrs)
  {
    match KindOf(name)
    case StringKind | FloatKind | IntKind | BoolKind => "name" in attrs && "value" in attrs
    case Point2Kind | Point3Kind | Vector2Kind | Vector3Kind => "name" in attrs && "value" in attrs
    case ScaleKind | TranslateKind => "value" in attrs
    case RotateKind => "axis" in attrs && "angle" in attrs
    case Unknown => false
  }

  /** What add_property does to the fields (property_list.rs:62-114); None
      when it panics: a missing attribute, an unparsable rotation angle, or
      a bool other than "true" and "false". A transform kind puts one new
      factor in front of the transform and changes nothing else; any other
      kind leaves the children and the transform alone. */
  function AddedProperty<O>(s: Props<O>, pType: string, attrs: map<string, string>, parse: Parsers): (r: Option<Props<O>>)
    ensures r.Some? && KindOf(pType).IsTransform() ==>
              |r.value.transform| == |s.transform| + 1 && r.value.transform[1..] == s.transform &&
              r.value == s.(transform := r.value.transform)
    ensures r.Some? && !KindOf(pType).IsTransform() ==> r.value.children == s.children && r.value.transform == s.transform
    ensures r.Some? && !IsPropertyType(pType) ==> r.value == s
  {
    var kind := KindOf(pType);
    if kind.IsTransform() then AddedTransform(s, kind, attrs, parse)
    else if "name" !in attrs || "value" !in attrs then None
    else StoredValue(s, kind, attrs["name"], attrs["value"], parse)
  }

  /** The transform kinds of add_property (property_list.rs:62-77). */
  function AddedTransform<O>(s: Props<O>, kind: Kind, attrs: map<string, string>, parse: Parsers): (r: Option<Props<O>>)
    requires kind.IsTransform()
    ensures r.Some? ==> |r.value.transform| == |s.transform| + 1 && r.value.transform[1..] == s.transform &&
                        r.value == s.(transform := r.value.transform)
  {
    if kind.RotateKind? then
      if "angle" !in attrs || "axis" !in attrs then None
      else
        match parse.float32(attrs["angle"])
        case None => None
        case Some(angle) => Some(s.(transform := [Rotate(angle, parse.vec3(attrs["axis"]))] + s.transform))
    else if "value" !in attrs then None
    else if kind.ScaleKind? then Some(s.(transform := [Scale(parse.vec3(attrs["value"]))] + s.transform))
    else Some(s.(transform := [Translate(parse.vec3(attrs["value"]))] + s.transform))
  }

  /** The value kinds of add_property (property_list.rs:79-113), once "name"
      and "value" have been read. */
  function StoredValue<O>(s: Props<O>, kind: Kind, key: string, value: string, parse: Parsers): (r: Option<Props<O>>)
    ensures r.Some? ==> r.value.children == s.children && r.value.transform == s.transform
    ensures !kind.IsValue() ==> r == Some(s)
  {
    match kind
    case StringKind => Some(s.(strings := s.strings[key := value]))
    case IntKind =>
      (match parse.int32(value)
       case Some(n) => Some(s.(ints := s.ints[key := n]))
       case None => Some(s))
    case FloatKind =>
      (match parse.float32(value)
       case Some(x) => Some(s.(floats := s.floats[key := x]))
       case None => Some(s))
    case BoolKind =>
      if value == "true" then Some(s.(bools := s.bools[key := true]))
      else if value == "false" then Some(s.(bools := s.bools[key := false]))
      else None
    case Point2Kind => Some(s.(point2s := s.point2s[key := parse.vec2(value)]))
    case Point3Kind => Some(s.(point3s := s.point3s[key := parse.vec3(value)]))
    case Vector2Kind => Some(s.(vector2s := s.vector2s[key := parse.vec2(value)]))
    case Vector3Kind => Some(s.(vector3s := s.vector3s[key := parse.vec3(value)]))
    case _ => Some(s)
  }

  /** On attributes that pass is_property_valid, add_property panics only
      on a bool that is neither "true" nor "false" and on a rotation angle
      that does not parse. */
  lemma ValidPropertyAccepted<O>(s: Props<O>, pType: string, attrs: map<string, string>, parse: Parsers)
    requires IsPropertyValid(pType, attrs)
    ensures AddedProperty(s, pType, attrs, parse).Some? <==>
              (pType == "bool" ==> attrs["value"] == "true" || attrs["value"] == "false") &&
              (pType == "rotate" ==> parse.float32(attrs["angle"]).Some?)
  {
  }

  /** A transform kind returns before reading "name": the result does not
      depend on it. */
  lemma TransformIgnoresName<O>(s: Props<O>, pType: string, attrs: map<string, string>, parse: Parsers)
    requires pType == "scale" || pType == "translate" || pType == "rotate"
    ensures AddedProperty(s, pType, attrs, parse) == AddedProperty(s, pType, attrs - {"name"}, parse)
  {
    var attrs' := attrs - {"name"};
    assert ("angle" in attrs <==> "angle" in attrs') && ("angle" in attrs ==> attrs["angle"] == attrs'["angle"]);
    assert ("axis" in attrs <==> "axis" in attrs') && ("axis" in attrs ==> attrs["axis"] == attrs'["axis"]);
    assert ("value" in attrs <==> "value" in attrs') && ("value" in attrs ==> attrs["value"] == attrs'["value"]);
  }

  /** An int or float whose value does not parse changes nothing. */
  lemma UnparsableNumberIgnored<O>(s: Props<O>, pType: string, attrs: map<string, string>, parse: Parsers)
    requires "name" in attrs && "value" in attrs
    requires (pType == "int" && parse.int32(attrs["value"]).None?) ||
             (pType == "float" && parse.float32(attrs["value"]).None?)
    ensures AddedProperty(s, pType, attrs, parse) == Some(s)
  {
  }

  /** A value kind stores its parsed value under "name" in its own map and
      changes no other field. */
  lemma ValueStoredUnderName<O>(s: Props<O>, pType: string, attrs: map<string, string>, parse: Parsers)
    requires "name" in attrs && "value" in attrs
    ensures var key, value := attrs["name"], attrs["value"];
            var r := AddedProperty(s, pType, attrs, parse);
            (pType == "string" ==> r == Some(s.(strings := s.strings[key := value]))) &&
            (pType == "int" && parse.int32(value).Some? ==> r == Some(s.(ints := s.ints[key := parse.int32(value).value]))) &&
            (pType == "float" && parse.float32(value).Some? ==> r == Some(s.(floats := s.floats[key := parse.float32(value).value]))) &&
            (pType == "bool" && (value == "true" || value == "false") ==> r == Some(s.(bools := s.bools[key := value == "true"]))) &&
            (pType == "point2" ==> r == Some(s.(point2s := s.point2s[key := parse.vec2(value)]))) &&
            (pType == "point3" ==> r == Some(s.(point3s := s.point3s[key := parse.vec3(value)]))) &&
            (pType == "vector2" ==> r == Some(s.(vector2s := s.vector2s[key := parse.vec2(value)]))) &&
            (pType == "vector3" ==> r == Some(s.(vector3s := s.vector3s[key := parse.vec3(value)])))
  {
  }

  /** get-with-default on a map: the stored value, or the default for an
      absent key. */
  function Lookup<V>(m: map<string, V>, k: string, default: V): (r: V)
    ensures k in m ==> r == m[k]
    ensures k !in m ==> r == default
  {
    if k in m then m[k] else default
  }

  /** After a set of k to v, a get of k returns v whatever the default, a
      get of any other key is what it was, and a later set of k wins. */
  lemma LookupAfterInsert<V>(m: map<string, V>, k: string, v: V, w: V, k': string, default: V)
    ensures Lookup(m[k := v], k, default) == v
    ensures k' != k ==> Lookup(m[k := v], k', default) == Lookup(m, k', default)
    ensures Lookup(m[k := v][k := w], k, default) == w
  {
  }

  class PropertyList<O> {
    var children: seq<O>
    var strings: map<string, string>
    var floats: map<string, Float>
    var ints: map<string, Int32>
    var bools: map<string, bool>
    var point2s: map<string, Vec2>
    var point3s: map<string, Vec3>
    var vector2s: map<string, Vec2>
    var vector3s: map<string, Vec3>
    var transform: seq<TransformStep>

    ghost function State(): Props<O>
      reads this
    {
      Props(children, strings, floats, ints, bools, point2s, point3s, vector2s, vector3s, transform)
    }

    /** PropertyList::new (property_list.rs:19-33): no children, empty
        maps, the identity transform. */
    constructor ()
      ensures State() == Props([], map[], map[], map[], map[], map[], map[], map[], map[], [])
    {
      children := [];
      strings, floats, ints, bools := map[], map[], map[], map[];
      point2s, point3s, vector2s, vector3s := map[], map[], map[], map[];
      transform := [];
    }

    /** PropertyList::add_property (property_list.rs:62-114); ok is false
        where the source panics. */
    method AddProperty(pType: string, attrs: map<string, string>, parse: Parsers) returns (ok: bool)
      modifies this
      ensures ok <==> AddedProperty(old(State()), pType, attrs, parse).Some?
      ensures ok ==> State() == AddedProperty(old(State()), pType, attrs, parse).value
    {
      var kind := KindOf(pType);
      if kind.IsTransform() {
        ok := AddTransformProperty(kind, attrs, parse);
        return;
      }
      if "name" !in attrs || "value" !in attrs {
        return false;
      }
      ok := StoreValue(kind, attrs["name"], attrs["value"], parse);
    }

    /** The early-returning transform branch of add_property. */
    method AddTransformProperty(kind: Kind, attrs: map<string, string>, parse: Parsers) returns (ok: bool)
      requires kind.IsTransform()
      modifies this`transform
      ensures ok <==> AddedTransform(old(State()), kind, attrs, parse).Some?
      ensures ok ==> State() == AddedTransform(old(State()), kind, attrs, parse).value
    {
      if kind.RotateKind? {
        if "angle" !in attrs || "axis" !in attrs {
          return false;
        }
        ok := AddRotation(attrs["angle"], attrs["axis"], parse);
      } else if "value" !in attrs {
        ok := false;
      } else if kind.ScaleKind? {
        AddScale(attrs["value"], parse);
        ok := true;
      } else {
        AddTranslation(attrs["value"], parse);
        ok := true;
      }
    }

    /** The match on the value kinds of add_property. */
    method StoreValue(kind: Kind, key: string, value: string, parse: Parsers) returns (ok: bool)
      modifies this`strings, this`ints, this`floats, this`bools, this`point2s, this`point3s, this`vector2s, this`vector3s
      ensures ok <==> StoredValue(old(State()), kind, key, value, parse).Some?
      ensures ok ==> State() == StoredValue(old(State()), kind, key, value, parse).value
    {
      ok := true;
      match kind {
        case StringKind => SetString(key, value);
        case IntKind =>
          var n := parse.int32(value);
          if n.Some? {
            SetInt(key, n.value);
          }
        case FloatKind =>
          var x := parse.float32(value);
          if x.Some? {
            SetFloat(key, x.value);
          }
        case BoolKind =>
          if value == "true" {
            SetBool(key, true);
          } else if value == "false" {
            SetBool(key, false);
          } else {
            ok := false;
          }
        case Point2Kind => SetPoint2(key, value, parse);
        case Point3Kind => SetPoint3(key, value, parse);
        case Vector2Kind => SetVector2(key, value, parse);
        case Vector3Kind => SetVector3(key, value, parse);
        case _ =>
      }
    }

    /** PropertyList::add_child (property_list.rs:116-118). */
    method AddChild(child: O)
      modifies this`children
      ensures children == old(children) + [child]
    {
      children := children + [child];
    }

    /** The setters (property_list.rs:120-150): each writes its own map. */
    method SetString(k: string, v: string)
      modifies this`strings
      ensures State() == old(State()).(strings := old(strings)[k := v])
    {
      strings := strings[k := v];
    }

    method SetFloat(k: string, v: Float)
      modifies this`floats
      ensures State() == old(State()).(floats := old(floats)[k := v])
    {
      floats := floats[k := v];
    }

    method SetInt(k: string, v: Int32)
      modifies this`ints
      ensures State() == old(State()).(ints := old(ints)[k := v])
    {
      ints := ints[k := v];
    }

    method SetBool(k: string, v: bool)
      modifies this`bools
      ensures State() == old(State()).(bools := old(bools)[k := v])
    {
      bools := bools[k := v];
    }

    method SetPoint2(k: string, v: string, parse: Parsers)
      modifies this`point2s
      ensures State() == old(State()).(point2s := old(point2s)[k := parse.vec2(v)])
    {
      point2s := point2s[k := parse.vec2(v)];
    }

    method SetPoint3(k: string, v: string, parse: Parsers)
      modifies this`point3s
      ensures State() == old(State()).(point3s := old(point3s)[k := parse.vec3(v)])
    {
      point3s := point3s[k := parse.vec3(v)];
    }

    method SetVector2(k: string, v: string, parse: Parsers)
      modifies this`vector2s
      ensures State() == old(State()).(vector2s := old(vector2s)[k := parse.vec2(v)])
    {
      vector2s := vector2s[k := parse.vec2(v)];
    }

    method SetVector3(k: string, v: string, parse: Parsers)
      modifies this`vector3s
      ensures State() == old(State()).(vector3s := old(vector3s)[k := parse.vec3(v)])
    {
      vector3s := vector3s[k := parse.vec3(v)];
    }

    /** add_scale, add_translation, add_rotation (property_list.rs:152-172):
        the new transform times the current matrix. add_rotation panics
        (ok false) when the angle does not parse. */
    method AddScale(v: string, parse: Parsers)
      modifies this`transform
      ensures transform == [Scale(parse.vec3(v))] + old(transform)
    {
      transform := [Scale(parse.vec3(v))] + transform;
    }

    method AddTranslation(v: string, parse: Parsers)
      modifies this`transform
      ensures transform == [Translate(parse.vec3(v))] + old(transform)
    {
      transform := [Translate(parse.vec3(v))] + transform;
    }

    method AddRotation(angle: string, axis: string, parse: Parsers) returns (ok: bool)
      modifies this`transform
      ensures ok <==> parse.float32(angle).Some?
      ensures ok ==> transform == [Rotate(parse.float32(angle).value, parse.vec3(axis))] + old(transform)
    {
      var rotationAxis := parse.vec3(axis);
      var rotationAngle := parse.float32(angle);
      if rotationAngle.None? {
        return false;
      }
      transform := [Rotate(rotationAngle.value, rotationAxis)] + transform;
      ok := true;
    }

    /** The getters (property_list.rs:174-204): the stored value or the
        default. */
    function GetString(k: string, default: string): string
      reads this
    {
      Lookup(strings, k, default)
    }

    function GetFloat(k: string, default: Float): Float
      reads this
    {
      Lookup(floats, k, default)
    }

    function GetInt(k: string, default: Int32): Int32
      reads this
    {
      Lookup(ints, k, default)
    }

    function GetBool(k: string, default: bool): bool
      reads this
    {
      Lookup(bools, k, default)
    }

    function GetPoint2(k: string, default: Vec2): Vec2
      reads this
    {
      Lookup(point2s, k, default)
    }

    function GetPoint3(k: string, default: Vec3): Vec3
      reads this
    {
      Lookup(point3s, k, default)
    }

    function GetVector2(k: string, default: Vec2): Vec2
      reads this
    {
      Lookup(vector2s, k, default)
    }

    function GetVector3(k: string, default: Vec3): Vec3
      reads this
    {
      Lookup(vector3s, k, default)
    }

    /** get_transform (property_list.rs:206-208): the accumulated factors. */
    function GetTransform(): seq<TransformStep>
      reads this
    {
      transform
    }
  }
}

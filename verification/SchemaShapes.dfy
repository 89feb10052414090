/** The wire schemas tools/check-schema-compat.py compares: definitions, what they name, and the
    rule one pair of shapes is held to. */
module SchemaShapes {

  type Name = string
  type Field = string

  /** A field's type. `AnyOf` with `NullTy` among its branches is a nullable one. */
  datatype Ty =
    | Scalar(kind: string)
    | NullTy
    | Ref(name: Name)
    | ListOf(item: Ty)
    | DictOf(item: Ty)
    | AnyOf(branches: seq<Ty>)

  datatype Prop = Prop(ty: Ty, hasDefault: bool)

  /** A definition: an object's properties and required names, an externally tagged enum's
      variants, or a scalar. Only the first has `properties`. */
  datatype Def =
    | Object(props: map<Field, Prop>, required: set<Field>)
    | Enum(variants: map<string, Ty>)
    | Plain(kind: string)

  /** A body's schema: none, a reference, an inline object, or anything else. */
  datatype Slot = NoBody | BodyRef(name: Name) | BodyInline(def: Def) | BodyOther(ty: Ty)

  datatype Route = Route(
    request: Slot,
    query: Slot,
    response: Slot,
    statuses: set<(int, string)>,
    events: map<string, Slot>)

  type RouteKey = (string, string)

  datatype Schema = Schema(routes: map<RouteKey, Route>, defs: map<Name, Def>)

  datatype Side = Request | Response

  datatype Shape = Absent | Shaped(name: Name, def: Def)

  const INLINE: Name := "(inline)"

  function Resolve(schema: Schema, slot: Slot): Shape {
    match slot
    case BodyRef(name) => Resolved(schema, name)
    case BodyInline(def) => if def.Object? then Shaped(INLINE, def) else Absent
    case _ => Absent
  }

  function Resolved(schema: Schema, name: Name): Shape {
    if name in schema.defs then Shaped(name, schema.defs[name]) else Absent
  }

  /** What the rules read of a shape. One that isn't an object's has no fields to hold. */
  function Props(shape: Shape): map<Field, Prop> {
    if shape.Shaped? && shape.def.Object? then shape.def.props else map[]
  }

  function Required(shape: Shape): set<Field> {
    if shape.Shaped? && shape.def.Object? then shape.def.required else {}
  }

  function Defaulted(props: map<Field, Prop>, field: Field): bool {
    field in props && props[field].hasDefault
  }

  function NullableTy(ty: Ty): bool {
    ty.NullTy? || (ty.AnyOf? && NullTy in ty.branches)
  }

  function Nullable(props: map<Field, Prop>, field: Field): bool {
    field in props && NullableTy(props[field].ty)
  }

  /** The definitions a type names. */
  function Refs(ty: Ty): set<Name> {
    match ty
    case Ref(name) => {name}
    case ListOf(item) => Refs(item)
    case DictOf(item) => Refs(item)
    case AnyOf(branches) => set i, name | 0 <= i < |branches| && name in Refs(branches[i]) :: name
    case _ => {}
  }

  datatype Break =
    | RouteGone(key: RouteKey)
    | StatusGone(key: RouteKey, status: (int, string))
    | EventGone(key: RouteKey, event: string)
    | RequiredNow(name: Name, field: Field)
    | RequestFieldGone(name: Name, field: Field)
    | NotRequiredNow(name: Name, field: Field)
    | ResponseGone(name: Name)
    | ResponseFieldGone(name: Name, field: Field)
    | MayBeAbsentNow(name: Name, field: Field)
    | RequiredNoDefault(name: Name, field: Field)

  function NameOf(shape: Shape): Name {
    if shape.Shaped? then shape.name else "(no body)"
  }

  /** The request rule on one pair of shapes. */
  function RequestBreaks(old_: Shape, new_: Shape): set<Break> {
    var (was, now) := (Props(old_), Props(new_));
    var (needed, needs) := (Required(old_), Required(new_));
    (set f | f in needs - needed :: RequiredNow(NameOf(new_), f))
    + (set f | f in was.Keys - now.Keys :: RequestFieldGone(NameOf(old_), f))
    + (set f | f in (needed - needs) * now.Keys :: NotRequiredNow(NameOf(new_), f))
  }

  /** The response rule on one pair of shapes. */
  function ResponseBreaks(old_: Shape, new_: Shape): set<Break> {
    var (was, now) := (Props(old_), Props(new_));
    var (needed, needs) := (Required(old_), Required(new_));
    if old_.Shaped? && new_.Absent? then {ResponseGone(NameOf(old_))}
    else
      (set f | f in was.Keys - now.Keys && f in needed && !Defaulted(was, f) :: ResponseFieldGone(NameOf(old_), f))
      + (set f | f in (needed - needs) * now.Keys && !Defaulted(was, f) && !Nullable(was, f) ::
           MayBeAbsentNow(NameOf(new_), f))
      + (set f | f in needs - needed && !Defaulted(now, f) :: RequiredNoDefault(NameOf(new_), f))
  }

  function LocalBreaks(side: Side, old_: Shape, new_: Shape): set<Break> {
    if side.Request? then RequestBreaks(old_, new_) else ResponseBreaks(old_, new_)
  }

  /** The pairs of definitions a shared field's two types hold to the same rule: each name they
      share, or, when they share none, the one each names. */
  function FieldPairs(was: Ty, now: Ty): set<(Name, Name)> {
    var (before, after) := (Refs(was), Refs(now));
    if before * after != {} then set n | n in before * after :: (n, n)
    else if |before| == 1 && |after| == 1 then set a, b | a in before && b in after :: (a, b)
    else {}
  }

  function Children(old_: Shape, new_: Shape): set<(Name, Name)> {
    set f, p | f in Props(old_).Keys * Props(new_).Keys &&
               p in FieldPairs(Props(old_)[f].ty, Props(new_)[f].ty) :: p
  }
}

/**
 * `CGType`, the code generator's view of a Latte type: a raw type and a
 * flag saying whether the value is an array of it, and the LLVM text of
 * each, as the user-visible type (passed around by pointer where the
 * value lives on the heap) and as the native type (the pointee).
 */
module CGTypes {
  import opened Wrappers
  import LatteAst
  import opened Decimal

  type ClassId = nat

  datatype RawType =
    | TInt
    | TBool
    | TVoid
    | TString
    | TRawPtr
    | TObject(id: ClassId)
    | TNull

  datatype CGType = CGType(isArr: bool, t: RawType)

  /** `CGType::new`: a plain, non-array value of raw type `r`. */
  function New(r: RawType): CGType
  {
    CGType(false, r)
  }

  function IntT(): CGType { New(TInt) }
  function BoolT(): CGType { New(TBool) }
  function VoidT(): CGType { New(TVoid) }
  function StrT(): CGType { New(TString) }
  function PtrT(): CGType { New(TRawPtr) }
  function NullT(): CGType { New(TNull) }
  function ObjT(id: ClassId): CGType { New(TObject(id)) }

  /** `arr_t`: an array whose elements have raw type `r`. */
  function ArrT(r: RawType): CGType
  {
    CGType(true, r)
  }

  function AsRaw(c: CGType): RawType
  {
    c.t
  }

  /** `arr_elem_t`: the element type of an array type. */
  function ArrElemT(c: CGType): CGType
  {
    c.(isArr := false)
  }

  /** `get_id`: the class of an object type; None is the panic for any other type. */
  function GetId(c: CGType): Option<ClassId>
  {
    match c.t
    case TObject(id) => Some(id)
    case _ => None
  }

  predicate IsArr(c: CGType)
  {
    c.isArr
  }

  /** `is_obj`: looks at the raw type only. */
  predicate IsObj(c: CGType)
  {
    c.t.TObject?
  }

  /** `RawType::from`: None is the `unreachable!()` for every type but int, bool, string and void. */
  function RawFrom(t: LatteAst.Type): Option<RawType>
  {
    match t
    case TInt => Some(TInt)
    case TBool => Some(TBool)
    case TString => Some(TString)
    case TVoid => Some(TVoid)
    case _ => None
  }

  /** `CGType::from`. */
  function From(t: LatteAst.Type): (r: Option<CGType>)
    ensures r.Some? ==> (IsArr(r.value) <==> t.TArray?) && !IsObj(r.value) && r.value.t != TNull
  {
    match t
    case TArray(e) => (match RawFrom(e) case Some(r) => Some(ArrT(r)) case None => None)
    case _ => (match RawFrom(t) case Some(r) => Some(New(r)) case None => None)
  }

  /** `RawType::native_type`; None is the panic on the null type. */
  function RawNative(r: RawType): Option<string>
  {
    match r
    case TInt => Some("i32")
    case TBool => Some("i1")
    case TString => Some("%string_t")
    case TVoid => Some("void")
    case TRawPtr => Some("i8*")
    case TObject(x) => Some("%class_" + NatToString(x))
    case TNull => None
  }

  /** `RawType::user_type`: strings and objects are handled through a pointer. */
  function RawUser(r: RawType): Option<string>
  {
    var n :- RawNative(r);
    if r.TString? || r.TObject? then Some(n + "*") else Some(n)
  }

  /** `in_arr_type`: arrays hold pointers to their elements' user type. */
  function InArrType(r: RawType): Option<string>
  {
    var u :- RawUser(r);
    Some(u + "*")
  }

  /** `CGType::user_type`, which is also how a `CGType` is displayed. */
  function UserType(c: CGType): (r: Option<string>)
    ensures r.None? <==> c.t == TNull
  {
    if c.isArr then
      var e :- InArrType(c.t);
      Some("{ i32, " + e + " }*")
    else RawUser(c.t)
  }

  /** The user types of a list of types; None when one of them is the null type. */
  function UserTypes(ts: seq<CGType>): (r: Option<seq<string>>)
    ensures r.Some? <==> forall i :: 0 <= i < |ts| ==> UserType(ts[i]).Some?
    ensures r.Some? ==> |r.value| == |ts| && forall i :: 0 <= i < |ts| ==> r.value[i] == UserType(ts[i]).value
    decreases |ts|
  {
    if |ts| == 0 then Some([])
    else
      var h :- UserType(ts[0]);
      var rest :- UserTypes(ts[1..]);
      Some([h] + rest)
  }

  /** `CGType::native_type`. */
  function NativeType(c: CGType): (r: Option<string>)
    ensures r.None? <==> c.t == TNull
  {
    if c.isArr then
      var e :- InArrType(c.t);
      Some("{ i32, " + e + " }")
    else RawNative(c.t)
  }

  // ---------------------------------------------------------------------
  // Properties

  /**
   * Only `arr_t` makes an array; `arr_elem_t` clears the flag, keeps the
   * raw type and undoes `arr_t`, and `as_raw` ignores the flag.
   */
  lemma ArrayFlag(r: RawType, id: ClassId, c: CGType)
    ensures IsArr(ArrT(r)) && AsRaw(ArrT(r)) == r
    ensures !IsArr(IntT()) && !IsArr(BoolT()) && !IsArr(VoidT()) && !IsArr(StrT())
    ensures !IsArr(PtrT()) && !IsArr(NullT()) && !IsArr(ObjT(id)) && !IsArr(New(r))
    ensures !IsArr(ArrElemT(c)) && AsRaw(ArrElemT(c)) == AsRaw(c)
    ensures ArrElemT(ArrT(r)) == New(r)
    ensures IsArr(c) ==> ArrT(AsRaw(c)) == c
    ensures !IsArr(c) ==> New(AsRaw(c)) == c
  {
  }

  /** `get_id` answers exactly for object types, arrays of objects included, and `is_obj` agrees. */
  lemma GetIdSpec(c: CGType, id: ClassId)
    ensures GetId(c).Some? <==> IsObj(c)
    ensures GetId(ObjT(id)) == Some(id)
    ensures IsObj(ArrT(TObject(id))) && GetId(ArrT(TObject(id))) == Some(id)
  {
  }

  predicate Basic(t: LatteAst.Type)
  {
    t == LatteAst.TInt || t == LatteAst.TBool || t == LatteAst.TString || t == LatteAst.TVoid
  }

  /**
   * `from` accepts the four basic types and arrays of them, maps an array
   * to `arr_t` of its element's raw type and never yields a null, pointer
   * or object type.
   */
  lemma FromSpec(t: LatteAst.Type)
    ensures From(t).Some? <==> Basic(t) || (t.TArray? && Basic(t.elem))
    ensures From(t).Some? ==> (From(t).value.isArr <==> t.TArray?)
    ensures From(t).Some? && t.TArray? ==> From(t) == Some(ArrT(From(t.elem).value.t))
    ensures From(t).Some? ==> From(t).value.t in {TInt, TBool, TString, TVoid}
  {
  }

  /**
   * Strings, objects and arrays are pointers: their user type is the
   * native type with a `*`; every other type is used as it is. Only the
   * null type has no LLVM type.
   */
  lemma PointerTypes(c: CGType)
    ensures NativeType(c).Some? <==> c.t != TNull
    ensures UserType(c).Some? <==> c.t != TNull
    ensures NativeType(c).Some? && (c.isArr || c.t.TString? || c.t.TObject?) ==>
              UserType(c).value == NativeType(c).value + "*"
    ensures NativeType(c).Some? && !(c.isArr || c.t.TString? || c.t.TObject?) ==>
              UserType(c) == NativeType(c)
  {
  }

  /** Reference decoder of a raw user type. */
  function ParseRawUser(s: string): Option<RawType>
  {
    if s == "i32" then Some(TInt)
    else if s == "i1" then Some(TBool)
    else if s == "void" then Some(TVoid)
    else if s == "i8*" then Some(TRawPtr)
    else if s == "%string_t*" then Some(TString)
    else if |s| > 8 && s[..7] == "%class_" && s[|s| - 1] == '*' &&
            forall i :: 7 <= i < |s| - 1 ==> IsDigit(s[i]) then
      Some(TObject(DigitsValue(s[7..|s| - 1])))
    else None
  }

  /** Reference decoder of a user type. */
  function ParseUser(s: string): Option<CGType>
  {
    if |s| >= 13 && s[..7] == "{ i32, " && s[|s| - 4..] == "* }*" then
      var r :- ParseRawUser(s[7..|s| - 4]);
      Some(ArrT(r))
    else
      var r :- ParseRawUser(s);
      Some(New(r))
  }

  lemma RawUserDecodes(r: RawType)
    requires r != TNull
    ensures ParseRawUser(RawUser(r).value) == Some(r)
    ensures 2 <= |RawUser(r).value| && RawUser(r).value[0] != '{'
  {
    if r.TObject? {
      var d := NatToString(r.id);
      var s := "%class_" + d + "*";
      assert RawUser(r).value == s;
      assert s[..7] == "%class_" && s[7..|s| - 1] == d;
      assert s[1] == 'c';
      assert forall i :: 7 <= i < |s| - 1 ==> s[i] == d[i - 7];
      NatToStringValue(r.id);
    }
  }

  /** A text that does not open with `{` is not read as an array type. */
  lemma NotArrayText(u: string)
    requires |u| >= 1 && u[0] != '{'
    ensures ParseUser(u) == (var r :- ParseRawUser(u); Some(New(r)))
  {
    if |u| >= 7 {
      assert u[..7][0] == u[0];
    }
  }

  lemma ArrayTextDecodes(u: string)
    requires |u| >= 2
    ensures ParseUser("{ i32, " + (u + "*") + " }*") == (var r :- ParseRawUser(u); Some(ArrT(r)))
  {
    var s := "{ i32, " + (u + "*") + " }*";
    assert s[..7] == "{ i32, ";
    assert s[|s| - 4..] == "* }*";
    assert s[7..|s| - 4] == u;
  }

  /** The user type text determines the type: the decoder reads it back. */
  lemma UserTypeDecodes(c: CGType)
    requires c.t != TNull
    ensures ParseUser(UserType(c).value) == Some(c)
  {
    RawUserDecodes(c.t);
    var u := RawUser(c.t).value;
    if c.isArr {
      assert UserType(c).value == "{ i32, " + (u + "*") + " }*";
      ArrayTextDecodes(u);
    } else {
      assert UserType(c).value == u;
      NotArrayText(u);
    }
  }

  /** Distinct types never print as the same LLVM type. */
  lemma UserTypeInjective(c: CGType, d: CGType)
    requires c.t != TNull && d.t != TNull && UserType(c) == UserType(d)
    ensures c == d
  {
    UserTypeDecodes(c);
    UserTypeDecodes(d);
  }
}

/**
 * `ToStringBuilder` (`ToStringBuilder.cs`): a reflective dump of an
 * object's declared fields. Reflection is not modelled: an object is given
 * as its type's full name and its declared fields, each with its name,
 * whether it is static, and its value already rendered as text (`None` for
 * a `null` value).
 */
module ToStringBuilders {
  import opened Wrappers
  import opened Strings

  datatype Field = Field(name: string, isStatic: bool, value: Option<string>)

  datatype ObjectInfo = ObjectInfo(typeName: string, fields: seq<Field>)

  const BackingFieldMarker: string := "__BackingField"

  const NullObjectText: string := "Object is null"

  /**
   * `ParseName`: a name holding "__BackingField" is cut down to the
   * `Substring(start, length)` with `start` one past the first '<' and
   * `length` one less than the position of the first '>'. `None` is the
   * ArgumentOutOfRangeException `Substring` throws when that range does not
   * fit the name.
   */
  function ParseName(value: string): (r: Option<string>)
    ensures !Contains(value, BackingFieldMarker) ==> r == Some(value)
  {
    if Contains(value, BackingFieldMarker) then
      var start := IndexOf(value, '<') + 1;
      var length := IndexOf(value, '>') - 1;
      if length < 0 || start + length > |value| then None
      else Some(value[start..start + length])
    else Some(value)
  }

  /** The name the compiler gives the backing field of auto-property `x`. */
  function BackingFieldName(x: string): string {
    "<" + x + ">k" + BackingFieldMarker
  }

  /** The first position of `c` in `s` is pinned down by where it occurs and where it does not. */
  lemma IndexOfAt(s: string, c: char, k: int)
    requires 0 <= k < |s| && s[k] == c && c !in s[..k]
    ensures IndexOf(s, c) == k
  {
  }

  /** `ParseName` recovers the property name from its backing field's name. */
  lemma ParseBackingField(x: string)
    requires '<' !in x && '>' !in x
    ensures ParseName(BackingFieldName(x)) == Some(x)
  {
    var v := BackingFieldName(x);
    assert OccursAt(v, BackingFieldMarker, |x| + 3);
    assert Contains(v, BackingFieldMarker);
    assert v[..0] == [];
    IndexOfAt(v, '<', 0);
    assert v[..|x| + 1] == "<" + x;
    IndexOfAt(v, '>', |x| + 1);
    assert v[1..1 + |x|] == x;
  }

  /** A backing-field name without a '>' makes `Substring` throw. */
  lemma ParseNameThrows(value: string)
    requires Contains(value, BackingFieldMarker) && '>' !in value
    ensures ParseName(value).None?
  {
  }

  /** The text `ReflectionToString` appends for one field: nothing for a static field. */
  function FieldText(f: Field): Option<string> {
    if f.isStatic then Some("")
    else match ParseName(f.name)
      case None => None
      case Some(n) => Some(", Field:<" + n + "> Value:<" + f.value.GetOr("null") + ">")
  }

  /** A non-static field whose name `ParseName` cannot parse. */
  predicate Unparsable(f: Field) {
    !f.isStatic && ParseName(f.name).None?
  }

  /** The text appended for `fs` in order; `None` when one of them throws. */
  function FieldsText(fs: seq<Field>): Option<string> {
    if |fs| == 0 then Some("")
    else
      var init := FieldsText(fs[..|fs| - 1]);
      var last := fs[|fs| - 1];
      if init.None? || FieldText(last).None? then None
      else Some(init.value + FieldText(last).value)
  }

  /** The dump throws exactly when some instance field's name cannot be parsed. */
  lemma {:induction false} FieldsTextThrows(fs: seq<Field>)
    ensures FieldsText(fs).None? <==> exists i :: 0 <= i < |fs| && Unparsable(fs[i])
    decreases |fs|
  {
    if |fs| > 0 {
      var init := fs[..|fs| - 1];
      FieldsTextThrows(init);
      assert forall i :: 0 <= i < |fs| - 1 ==> init[i] == fs[i];
      if exists i :: 0 <= i < |fs| && Unparsable(fs[i]) {
        var i :| 0 <= i < |fs| && Unparsable(fs[i]);
        if i < |fs| - 1 {
          assert Unparsable(init[i]);
        }
      }
    }
  }

  /** `ReflectionToString`, as a value: `None` when it throws. */
  function Rendered(obj: Option<ObjectInfo>): (r: Option<string>)
    ensures obj.None? ==> r == Some(NullObjectText)
    ensures obj.Some? ==> (r.None? <==> exists i :: 0 <= i < |obj.value.fields| && Unparsable(obj.value.fields[i]))
    ensures obj.Some? && r.Some? ==>
              StartsWith(r.value, "[Type:<" + obj.value.typeName + ">") && EndsWith(r.value, "]")
  {
    match obj
    case None => Some(NullObjectText)
    case Some(o) =>
      FieldsTextThrows(o.fields);
      match FieldsText(o.fields)
      case None => None
      case Some(t) =>
        var head := "[Type:<" + o.typeName + ">";
        var r := head + t + "]";
        assert r[..|head|] == head;
        Some(r)
  }

  /** The fields that are not static, in their order. */
  function Instance(fs: seq<Field>): (r: seq<Field>)
    ensures |r| <= |fs|
    ensures forall i :: 0 <= i < |r| ==> !r[i].isStatic
  {
    if |fs| == 0 then []
    else Instance(fs[..|fs| - 1]) + (if fs[|fs| - 1].isStatic then [] else [fs[|fs| - 1]])
  }

  lemma {:induction false} FieldsTextAppend(a: seq<Field>, f: Field)
    ensures FieldsText(a + [f]) ==
            if FieldsText(a).None? || FieldText(f).None? then None else Some(FieldsText(a).value + FieldText(f).value)
  {
    assert (a + [f])[..|a|] == a;
  }

  /** Appending a static field leaves the dump as it was. */
  lemma StaticAppend(a: seq<Field>, f: Field)
    requires f.isStatic
    ensures FieldsText(a + [f]) == FieldsText(a)
  {
    FieldsTextAppend(a, f);
    assert FieldText(f) == Some("");
    if FieldsText(a).Some? {
      assert FieldsText(a).value + "" == FieldsText(a).value;
    }
  }

  /** Static fields contribute nothing: the dump of the instance fields alone is the same. */
  lemma {:induction false} StaticFieldsSkipped(fs: seq<Field>)
    ensures FieldsText(Instance(fs)) == FieldsText(fs)
    decreases |fs|
  {
    if |fs| > 0 {
      var init := fs[..|fs| - 1];
      var last := fs[|fs| - 1];
      StaticFieldsSkipped(init);
      assert fs == init + [last];
      if last.isStatic {
        assert Instance(fs) == Instance(init);
        StaticAppend(init, last);
      } else {
        assert Instance(fs) == Instance(init) + [last];
        FieldsTextAppend(init, last);
        FieldsTextAppend(Instance(init), last);
      }
    }
  }

  /** The text a parsed instance field contributes. */
  lemma InstanceFieldText(f: Field, n: string)
    requires !f.isStatic && ParseName(f.name) == Some(n)
    ensures FieldText(f) == Some(", Field:<" + n + "> Value:<" + f.value.GetOr("null") + ">")
  {
  }

  /** One more field of the loop: the dump of the longer prefix, or the throw. */
  lemma FieldsTextStep(fs: seq<Field>, i: int)
    requires 0 <= i < |fs| && FieldsText(fs[..i]).Some?
    ensures FieldText(fs[i]).Some? ==> FieldsText(fs[..i + 1]) == Some(FieldsText(fs[..i]).value + FieldText(fs[i]).value)
    ensures FieldText(fs[i]).None? ==> FieldsText(fs).None?
  {
    assert fs[..i + 1] == fs[..i] + [fs[i]];
    FieldsTextAppend(fs[..i], fs[i]);
    if FieldText(fs[i]).None? {
      assert Unparsable(fs[i]);
      FieldsTextThrows(fs);
    }
  }

  /**
   * `ReflectionToString`: "Object is null" for `null`; otherwise the type,
   * then one ", Field:<name> Value:<value>" per instance field, appended in
   * a loop, and a closing bracket.
   */
  method ReflectionToString(obj: Option<ObjectInfo>) returns (r: Option<string>)
    ensures r == Rendered(obj)
  {
    var sb := "[";
    if obj.None? {
      return Some(NullObjectText);
    }
    var o := obj.value;
    sb := sb + "Type:<" + o.typeName + ">";
    ghost var head := sb;
    var fs := o.fields;
    for i := 0 to |fs|
      invariant FieldsText(fs[..i]).Some? && sb == head + FieldsText(fs[..i]).value
    {
      var f := fs[i];
      ghost var done := FieldsText(fs[..i]).value;
      FieldsTextStep(fs, i);
      if !f.isStatic {
        var name := ParseName(f.name);
        if name.None? {
          return None;
        }
        var text := ", Field:<" + name.value + "> Value:<" + f.value.GetOr("null") + ">";
        InstanceFieldText(f, name.value);
        JoinAssoc(head, done, text);
        sb := sb + text;
      } else {
        assert done + "" == done;
      }
    }
    assert fs[..|fs|] == fs;
    assert head == "[Type:<" + o.typeName + ">";
    sb := sb + "]";
    r := Some(sb);
  }
}

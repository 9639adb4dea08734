/**
 * `ScoutJsonEncoder.default`: how an object `json.dumps` cannot encode by
 * itself is turned into JSON. A datetime becomes its text; any other object
 * first loses four deny-listed attributes, in place, and is then encoded as
 * its attribute dict, or as its text when it has none.
 */
module JsonEncoder {
  import opened JsonValue

  /** The attributes stripped from a provider object before it is encoded. */
  const DeniedAttributes: set<string> := {"profile", "credentials", "metadata_path", "services_config"}

  /** The entries of `attrs` whose names are not in `names`, in their order. */
  function Without(attrs: Fields, names: set<string>): (r: Fields)
    ensures |r| <= |attrs|
    ensures forall i :: 0 <= i < |r| ==> r[i].0 !in names
  {
    if attrs == [] then []
    else (if attrs[0].0 in names then [] else [attrs[0]]) + Without(attrs[1..], names)
  }

  /** Removing names hides exactly those names and leaves every other attribute as it was. */
  lemma {:induction false} WithoutLookup(attrs: Fields, names: set<string>, k: string)
    ensures Lookup(Without(attrs, names), k) == if k in names then None else Lookup(attrs, k)
  {
    if attrs != [] {
      WithoutLookup(attrs[1..], names, k);
      LookupAppend(if attrs[0].0 in names then [] else [attrs[0]], Without(attrs[1..], names), k);
    }
  }

  /** Removing names none of the attributes has changes nothing. */
  lemma {:induction false} WithoutAbsent(attrs: Fields, names: set<string>)
    requires forall i :: 0 <= i < |attrs| ==> attrs[i].0 !in names
    ensures Without(attrs, names) == attrs
  {
    if attrs != [] {
      WithoutAbsent(attrs[1..], names);
    }
  }

  /** Removing one set of names and then another removes both. */
  lemma {:induction false} WithoutTwice(attrs: Fields, a: set<string>, b: set<string>)
    ensures Without(Without(attrs, a), b) == Without(attrs, a + b)
  {
    if attrs != [] {
      WithoutTwice(attrs[1..], a, b);
      var rest := Without(attrs[1..], a);
      if attrs[0].0 !in a {
        assert Without(attrs, a) == [attrs[0]] + rest;
        assert ([attrs[0]] + rest)[1..] == rest;
      } else {
        assert Without(attrs, a) == rest;
        assert Without(attrs, a + b) == Without(attrs[1..], a + b);
      }
    }
  }

  /** Removing the deny-list a second time changes nothing. */
  lemma WithoutDeniedIdempotent(attrs: Fields)
    ensures Without(Without(attrs, DeniedAttributes), DeniedAttributes) == Without(attrs, DeniedAttributes)
  {
    WithoutAbsent(Without(attrs, DeniedAttributes), DeniedAttributes);
  }

  /** The four deletions one after another strip exactly the deny-list. */
  lemma DeleteDenied(attrs: Fields)
    ensures Without(Without(Without(Without(attrs, {"profile"}), {"credentials"}), {"metadata_path"}), {"services_config"})
      == Without(attrs, DeniedAttributes)
  {
    WithoutTwice(attrs, {"profile"}, {"credentials"});
    WithoutTwice(attrs, {"profile", "credentials"}, {"metadata_path"});
    WithoutTwice(attrs, {"profile", "credentials", "metadata_path"}, {"services_config"});
    assert {"profile"} + {"credentials"} == {"profile", "credentials"};
    assert {"profile", "credentials"} + {"metadata_path"} == {"profile", "credentials", "metadata_path"};
    assert {"profile", "credentials", "metadata_path"} + {"services_config"} == DeniedAttributes;
  }

  /** `if hasattr(o, name): del o.name` is the removal of that one name. */
  lemma DeleteIfPresent(attrs: Fields, name: string)
    ensures (if Lookup(attrs, name).Some? then Without(attrs, {name}) else attrs) == Without(attrs, {name})
  {
    if Lookup(attrs, name).None? {
      WithoutAbsent(attrs, {name});
    }
  }

  /** What `type(o)` and `vars(o)` tell the encoder about an object. */
  datatype PyKind =
    | DateTime       // `type(o) == datetime.datetime`
    | WithDict       // any other object, `vars(o)` succeeds
    | WithoutDict    // any other object, `vars(o)` raises TypeError

  /** An object handed to the encoder: its kind, what `str(o)` gives, and its attributes. */
  class PyObject {
    const kind: PyKind
    const text: string
    var attrs: Fields

    constructor (kind: PyKind, text: string, attrs: Fields)
      ensures this.kind == kind && this.text == text && this.attrs == attrs
    {
      this.kind := kind;
      this.text := text;
      this.attrs := attrs;
    }

    /**
     * `default(o)`. The deletions happen before `vars(o)` is tried, so an
     * object without an attribute dict still loses the deny-listed
     * attributes before the encoder falls back to its text.
     */
    method Default() returns (r: Json)
      modifies this
      ensures kind == DateTime ==> attrs == old(attrs) && r == JStr(text)
      ensures kind != DateTime ==> attrs == Without(old(attrs), DeniedAttributes)
      ensures kind == WithDict ==> r == JObject(attrs)
      ensures kind == WithoutDict ==> r == JStr(text)
    {
      if kind == DateTime {
        return JStr(text);
      }
      ghost var before := attrs;
      DeleteIfPresent(attrs, "profile");
      if Lookup(attrs, "profile").Some? {
        attrs := Without(attrs, {"profile"});
      }
      DeleteIfPresent(attrs, "credentials");
      if Lookup(attrs, "credentials").Some? {
        attrs := Without(attrs, {"credentials"});
      }
      DeleteIfPresent(attrs, "metadata_path");
      if Lookup(attrs, "metadata_path").Some? {
        attrs := Without(attrs, {"metadata_path"});
      }
      ghost var a3 := attrs;
      DeleteIfPresent(attrs, "services_config");
      if Lookup(attrs, "services_config").Some? {
        attrs := Without(attrs, {"services_config"});
      }
      assert attrs == Without(a3, {"services_config"});
      DeleteDenied(before);
      if kind == WithDict {
        r := JObject(attrs);
      } else {
        r := JStr(text);
      }
    }
  }
}

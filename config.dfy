/**
 * The extension's settings record: built-in defaults, the user's custom
 * overrides, and `getConfig`, which merges them with object spread
 * (`{ ...defaults, ...custom }`).
 */
module Config {
  import opened Wrappers

  /** The kinds of value the settings record holds. */
  datatype Value = Str(s: string) | StrList(items: seq<string>) | Num(n: int) | Bool(b: bool)

  /** A plain JavaScript object: its own properties, in the order they were created. */
  type Object = seq<(string, Value)>

  /** The set of property names. */
  function KeySet(o: Object): set<string>
  {
    set p | p in o :: p.0
  }

  /** No property name occurs twice, as in every JavaScript object. */
  predicate WellFormed(o: Object)
  {
    forall i, j :: 0 <= i < j < |o| ==> o[i].0 != o[j].0
  }

  /** Own-property read `o[k]` (the prototype chain is not consulted); `None` stands for `undefined`. */
  function Get(o: Object, k: string): Option<Value>
  {
    if o == [] then None
    else if o[0].0 == k then Some(o[0].1)
    else Get(o[1..], k)
  }

  /** Own-property write `o[k] = v`: an existing property keeps its place, a new one goes last. */
  function Set(o: Object, k: string, v: Value): Object
  {
    if o == [] then [(k, v)]
    else if o[0].0 == k then [(k, v)] + o[1..]
    else [o[0]] + Set(o[1..], k, v)
  }

  /** Spreading `src` into `target`: each of its properties is written in order. */
  function Assign(target: Object, src: Object): Object
    decreases |src|
  {
    if src == [] then target
    else Assign(Set(target, src[0].0, src[0].1), src[1..])
  }

  /** `{ ...a, ...b }`: a fresh object that receives `a`'s properties, then `b`'s. */
  function Merge(a: Object, b: Object): Object
  {
    Assign(Assign([], a), b)
  }

  /** `CONFIG.defaults`. */
  function Defaults(): Object
  {
    [ ("jobTitle", Str("Software Engineer")),
      ("location", Str("San Francisco Bay Area")),
      ("jobType", Str("none")),
      ("experienceLevels", StrList(["2", "3", "4"])),
      ("refreshInterval", Num(5000)),
      ("maxApplications", Num(50)),
      ("autoScroll", Bool(true)) ]
  }

  /** `CONFIG.custom`. */
  function Custom(): Object
  {
    [ ("jobTitle", Str("Frontend Engineer")),
      ("location", Str("Remote")),
      ("maxApplications", Num(100)) ]
  }

  /** `getConfig()`. It reads the two constant records and builds a new one. */
  function GetConfig(): Object
  {
    Merge(Defaults(), Custom())
  }

  // ----- properties of reads, writes and spreads -----

  lemma {:induction false} GetFindsKey(o: Object, k: string)
    ensures Get(o, k).Some? <==> k in KeySet(o)
  {
    if o != [] {
      GetFindsKey(o[1..], k);
      assert KeySet(o) == {o[0].0} + KeySet(o[1..]) by {
        assert o == [o[0]] + o[1..];
      }
    }
  }

  /** A write makes `k` read back as `v` and leaves every other property as it was. */
  lemma {:induction false} SetThenGet(o: Object, k: string, v: Value, k': string)
    ensures Get(Set(o, k, v), k') == if k' == k then Some(v) else Get(o, k')
  {
    if o != [] && o[0].0 != k {
      SetThenGet(o[1..], k, v, k');
    }
  }

  lemma KeySetCons(o: Object)
    requires o != []
    ensures KeySet(o) == {o[0].0} + KeySet(o[1..])
  {
    assert o == [o[0]] + o[1..];
  }

  /** A write adds `k` to the names. */
  lemma {:induction false} SetKeys(o: Object, k: string, v: Value)
    ensures KeySet(Set(o, k, v)) == KeySet(o) + {k}
  {
    if o != [] {
      KeySetCons(o);
      KeySetCons(Set(o, k, v));
      if o[0].0 != k {
        SetKeys(o[1..], k, v);
      }
    }
  }

  /** Putting a property whose name is new in front keeps an object free of repeated names. */
  lemma ConsWellFormed(p: (string, Value), o: Object)
    requires WellFormed(o) && p.0 !in KeySet(o)
    ensures WellFormed([p] + o)
  {
    var r := [p] + o;
    forall i, j | 0 <= i < j < |r|
      ensures r[i].0 != r[j].0
    {
      assert r[j] == o[j - 1] && o[j - 1] in o;
      if 0 < i {
        assert r[i] == o[i - 1];
      }
    }
  }

  /** A write keeps an object free of repeated names. */
  lemma {:induction false} SetWellFormed(o: Object, k: string, v: Value)
    requires WellFormed(o)
    ensures WellFormed(Set(o, k, v))
  {
    if o != [] && o[0].0 != k {
      SetWellFormed(o[1..], k, v);
      SetKeys(o[1..], k, v);
      assert o[0].0 !in KeySet(o[1..]) by { KeySetCons(o); }
      ConsWellFormed(o[0], Set(o[1..], k, v));
    }
  }

  /**
   * After a spread every property of `src` reads as in `src`, and every
   * other property reads as in `target`: the source overrides the target.
   */
  lemma {:induction false} AssignThenGet(target: Object, src: Object, k: string)
    requires WellFormed(src)
    ensures Get(Assign(target, src), k) == if k in KeySet(src) then Get(src, k) else Get(target, k)
    decreases |src|
  {
    if src != [] {
      var rest := src[1..];
      assert WellFormed(rest);
      AssignThenGet(Set(target, src[0].0, src[0].1), rest, k);
      SetThenGet(target, src[0].0, src[0].1, k);
      GetFindsKey(src, k);
      GetFindsKey(rest, k);
      assert KeySet(src) == {src[0].0} + KeySet(rest) by { assert src == [src[0]] + rest; }
      if k == src[0].0 {
        assert k !in KeySet(rest);
      }
    }
  }

  /** A spread's names are the union of both objects' names, none repeated. */
  lemma {:induction false} AssignKeys(target: Object, src: Object)
    ensures KeySet(Assign(target, src)) == KeySet(target) + KeySet(src)
    ensures WellFormed(target) ==> WellFormed(Assign(target, src))
    decreases |src|
  {
    if src != [] {
      var t' := Set(target, src[0].0, src[0].1);
      SetKeys(target, src[0].0, src[0].1);
      if WellFormed(target) {
        SetWellFormed(target, src[0].0, src[0].1);
      }
      AssignKeys(t', src[1..]);
      KeySetCons(src);
    }
  }

  /** The merge reads as `b` on `b`'s names and as `a` everywhere else, on exactly their union. */
  lemma MergeSpec(a: Object, b: Object, k: string)
    requires WellFormed(a) && WellFormed(b)
    ensures Get(Merge(a, b), k) == if k in KeySet(b) then Get(b, k) else Get(a, k)
    ensures KeySet(Merge(a, b)) == KeySet(a) + KeySet(b)
    ensures WellFormed(Merge(a, b))
  {
    AssignThenGet([], a, k);
    GetFindsKey(a, k);
    AssignThenGet(Assign([], a), b, k);
    AssignKeys([], a);
    AssignKeys(Assign([], a), b);
  }

  // ----- what getConfig returns -----

  lemma DefaultsWellFormed()
    ensures WellFormed(Defaults())
  {
  }

  lemma CustomKeys()
    ensures WellFormed(Custom())
    ensures KeySet(Custom()) == {"jobTitle", "location", "maxApplications"}
  {
    assert Custom()[0].0 == "jobTitle";
    assert Custom()[1].0 == "location";
    assert Custom()[2].0 == "maxApplications";
  }

  /** Every name of the merged record reads from the custom record when it has it, else from the defaults. */
  lemma {:induction false} MergedRead(k: string)
    ensures Get(GetConfig(), k) ==
      if k in {"jobTitle", "location", "maxApplications"} then Get(Custom(), k) else Get(Defaults(), k)
  {
    DefaultsWellFormed();
    CustomKeys();
    MergeSpec(Defaults(), Custom(), k);
  }

  /** The custom job title, location and application cap override the defaults. */
  lemma CustomOverridesDefaults()
    ensures Get(GetConfig(), "jobTitle") == Some(Str("Frontend Engineer"))
    ensures Get(GetConfig(), "location") == Some(Str("Remote"))
    ensures Get(GetConfig(), "maxApplications") == Some(Num(100))
  {
    MergedRead("jobTitle");
    MergedRead("location");
    MergedRead("maxApplications");
  }

  /** Names the custom record leaves out keep their default values. */
  lemma AbsentKeysKeepDefaults()
    ensures Get(GetConfig(), "jobType") == Some(Str("none"))
    ensures Get(GetConfig(), "experienceLevels") == Some(StrList(["2", "3", "4"]))
    ensures Get(GetConfig(), "refreshInterval") == Some(Num(5000))
    ensures Get(GetConfig(), "autoScroll") == Some(Bool(true))
  {
    MergedRead("jobType");
    MergedRead("experienceLevels");
    MergedRead("refreshInterval");
    MergedRead("autoScroll");
  }

  /** Every custom name is also a default name. */
  lemma CustomKeysAmongDefaults()
    ensures KeySet(Custom()) <= KeySet(Defaults())
  {
    CustomKeys();
    assert Defaults()[0].0 == "jobTitle" && Defaults()[0] in Defaults();
    assert Defaults()[1].0 == "location" && Defaults()[1] in Defaults();
    assert Defaults()[5].0 == "maxApplications" && Defaults()[5] in Defaults();
  }

  /** The merged names are exactly the defaults' and the custom names together, none repeated. */
  lemma MergedKeySet()
    ensures KeySet(GetConfig()) == KeySet(Defaults()) + KeySet(Custom())
    ensures KeySet(GetConfig()) == KeySet(Defaults())
    ensures WellFormed(GetConfig())
  {
    DefaultsWellFormed();
    CustomKeys();
    MergeSpec(Defaults(), Custom(), "");
    CustomKeysAmongDefaults();
  }
}

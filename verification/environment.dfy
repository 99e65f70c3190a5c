/**
 Environment composition: the list of `NAME=value` strings senv hands to the
 child process (senv/main.go, lines 82-93). The inherited environment is
 taken as a parameter, and the property map as a sequence of key/value pairs
 in whatever order the map happened to be iterated.
 */
module Environment {
  import opened Strings
  import opened Sanitize

  /** One fetched configuration property. */
  datatype Property = Property(key: String, value: String)

  /** Keys of a property map are unique. */
  predicate DistinctKeys(props: seq<Property>) {
    forall i, j :: 0 <= i < j < |props| ==> props[i].key != props[j].key
  }

  /** The `%s=%s` entry for a variable: the '=' sits right after the name. */
  function Entry(name: String, value: String): (e: String)
    ensures |e| == |name| + 1 + |value|
    ensures e[|name|] == '='
  {
    name + "=" + value
  }

  /** An entry holds its name, then '=', then its value, verbatim; so
      whoever reads the environment and splits an entry at its first '='
      gets the name and the value back, provided the name holds no '='. */
  lemma EntrySplits(name: String, value: String)
    ensures |Entry(name, value)| == |name| + 1 + |value|
    ensures Entry(name, value)[..|name|] == name
    ensures Entry(name, value)[|name|] == '='
    ensures Entry(name, value)[|name| + 1..] == value
    ensures '=' !in name ==> forall i :: 0 <= i < |name| ==> Entry(name, value)[i] != '='
  {
  }

  /** The entry property `p` contributes: since sanitization keeps the
      length, the '=' sits right after as many characters as the key has,
      whether or not the key is sanitized. */
  function PropertyEntry(p: Property, sanitize: bool): (e: String)
    ensures |e| == |p.key| + 1 + |p.value|
    ensures e[|p.key|] == '='
  {
    Entry(EnvVarName(p.key, sanitize), p.value)
  }

  /** The entries of all properties, one per property, in iteration order. */
  function PropertyEntries(props: seq<Property>, sanitize: bool): (es: seq<String>)
    ensures |es| == |props|
  {
    if props == [] then []
    else PropertyEntries(props[..|props| - 1], sanitize) + [PropertyEntry(props[|props| - 1], sanitize)]
  }

  /** Each property contributes exactly its own entry, at its own position. */
  lemma {:induction false} PropertyEntriesAt(props: seq<Property>, sanitize: bool)
    ensures forall i :: 0 <= i < |props| ==> PropertyEntries(props, sanitize)[i] == PropertyEntry(props[i], sanitize)
  {
    if props != [] {
      var init := props[..|props| - 1];
      PropertyEntriesAt(init, sanitize);
      assert forall i :: 0 <= i < |init| ==> props[i] == init[i];
    }
  }

  /** The composed environment of the child process: the inherited entries
      unless the system environment is switched off, then the property
      entries. */
  function ComposeEnv(inherited: seq<String>, props: seq<Property>, noSysEnv: bool, sanitize: bool): (env: seq<String>)
    ensures !noSysEnv ==> |env| == |inherited| + |props| && env[..|inherited|] == inherited
    ensures noSysEnv ==> |env| == |props|
  {
    (if noSysEnv then [] else inherited) + PropertyEntries(props, sanitize)
  }

  /** The layout of the composed environment: one entry per property, each
      exactly `name=value`, after the inherited entries when those are
      included, which then form an unchanged prefix in their original order;
      without them, every entry comes from a property, and no property means
      an empty environment. */
  lemma ComposeEnvLayout(inherited: seq<String>, props: seq<Property>, noSysEnv: bool, sanitize: bool)
    ensures !noSysEnv ==> |ComposeEnv(inherited, props, noSysEnv, sanitize)| == |inherited| + |props|
    ensures !noSysEnv ==> ComposeEnv(inherited, props, noSysEnv, sanitize)[..|inherited|] == inherited
    ensures !noSysEnv ==> forall i :: 0 <= i < |props| ==>
              ComposeEnv(inherited, props, noSysEnv, sanitize)[|inherited| + i] == PropertyEntry(props[i], sanitize)
    ensures noSysEnv ==> |ComposeEnv(inherited, props, noSysEnv, sanitize)| == |props|
    ensures noSysEnv ==> forall i :: 0 <= i < |props| ==>
              ComposeEnv(inherited, props, noSysEnv, sanitize)[i] == PropertyEntry(props[i], sanitize)
    ensures noSysEnv ==> forall e :: e in ComposeEnv(inherited, props, noSysEnv, sanitize) ==>
              exists p :: p in props && e == PropertyEntry(p, sanitize)
    ensures noSysEnv && props == [] ==> ComposeEnv(inherited, props, noSysEnv, sanitize) == []
  {
    var env := ComposeEnv(inherited, props, noSysEnv, sanitize);
    PropertyEntriesAt(props, sanitize);
    if noSysEnv {
      assert env == PropertyEntries(props, sanitize);
      forall e | e in env
        ensures exists p :: p in props && e == PropertyEntry(p, sanitize)
      {
        EntryOfSomeProperty(props, sanitize, e);
      }
    }
  }

  /** The composition as the code performs it: start from the inherited
      entries or from nothing, then append one entry per property. */
  method BuildEnv(inherited: seq<String>, props: seq<Property>, noSysEnv: bool, sanitize: bool)
    returns (env: seq<String>)
    ensures env == ComposeEnv(inherited, props, noSysEnv, sanitize)
  {
    env := [];
    if !noSysEnv {
      env := inherited;
    }
    ghost var seed := env;
    var i := 0;
    while i < |props|
      invariant 0 <= i <= |props|
      invariant env == seed + PropertyEntries(props[..i], sanitize)
    {
      assert props[..i + 1][..i] == props[..i];
      env := env + [PropertyEntry(props[i], sanitize)];
      i := i + 1;
    }
    assert props[..i] == props;
  }

  /** An entry is among the property entries exactly when some property
      contributes it. */
  lemma {:induction false} EntryOfSomeProperty(props: seq<Property>, sanitize: bool, e: String)
    ensures e in PropertyEntries(props, sanitize) <==> exists p :: p in props && e == PropertyEntry(p, sanitize)
  {
    var es := PropertyEntries(props, sanitize);
    PropertyEntriesAt(props, sanitize);
    if e in es {
      var i :| 0 <= i < |es| && es[i] == e;
      assert props[i] in props;
    }
    if p :| p in props && e == PropertyEntry(p, sanitize) {
      var i :| 0 <= i < |props| && props[i] == p;
      assert es[i] == e;
    }
  }

  /** Every property, and with the system environment on every inherited
      entry, is present in the composed environment. */
  lemma NothingDropped(inherited: seq<String>, props: seq<Property>, noSysEnv: bool, sanitize: bool)
    ensures forall p :: p in props ==> PropertyEntry(p, sanitize) in ComposeEnv(inherited, props, noSysEnv, sanitize)
    ensures !noSysEnv ==> forall e :: e in inherited ==> e in ComposeEnv(inherited, props, noSysEnv, sanitize)
  {
    var entries := PropertyEntries(props, sanitize);
    assert ComposeEnv(inherited, props, noSysEnv, sanitize) == (if noSysEnv then [] else inherited) + entries;
    forall p | p in props
      ensures PropertyEntry(p, sanitize) in entries
    {
      EntryOfSomeProperty(props, sanitize, PropertyEntry(p, sanitize));
    }
  }

  /** Adding a property only appends its entry: the environment composed
      before is an unchanged prefix. */
  lemma ComposeAppends(inherited: seq<String>, props: seq<Property>, p: Property, noSysEnv: bool, sanitize: bool)
    ensures ComposeEnv(inherited, props + [p], noSysEnv, sanitize)
            == ComposeEnv(inherited, props, noSysEnv, sanitize) + [PropertyEntry(p, sanitize)]
  {
  }

  /** The order in which the property map is iterated does not change which
      entries the composed environment holds. */
  lemma EntriesOrderIndependent(inherited: seq<String>, a: seq<Property>, b: seq<Property>, noSysEnv: bool, sanitize: bool)
    requires forall p :: p in a <==> p in b
    ensures forall e :: e in ComposeEnv(inherited, a, noSysEnv, sanitize) <==> e in ComposeEnv(inherited, b, noSysEnv, sanitize)
  {
    forall e
      ensures e in ComposeEnv(inherited, a, noSysEnv, sanitize) <==> e in ComposeEnv(inherited, b, noSysEnv, sanitize)
    {
      EntryOfSomeProperty(a, sanitize, e);
      EntryOfSomeProperty(b, sanitize, e);
    }
  }

  /** The entries of two property sequences one after the other are the
      entries of their concatenation. */
  lemma {:induction false} PropertyEntriesConcat(x: seq<Property>, y: seq<Property>, sanitize: bool)
    ensures PropertyEntries(x + y, sanitize) == PropertyEntries(x, sanitize) + PropertyEntries(y, sanitize)
    decreases |y|
  {
    if y == [] {
      assert x + y == x;
    } else {
      var y0 := y[..|y| - 1];
      PropertyEntriesConcat(x, y0, sanitize);
      assert (x + y)[..|x + y| - 1] == x + y0;
      assert (x + y)[|x + y| - 1] == y[|y| - 1];
    }
  }

  /** Property `j`'s entry sits between the entries of the properties
      before it and those after it. */
  lemma PropertyEntriesSplit(b: seq<Property>, j: int, sanitize: bool)
    requires 0 <= j < |b|
    ensures PropertyEntries(b, sanitize)
            == PropertyEntries(b[..j], sanitize) + [PropertyEntry(b[j], sanitize)] + PropertyEntries(b[j + 1..], sanitize)
  {
    assert b == b[..j] + [b[j]] + b[j + 1..];
    PropertyEntriesConcat(b[..j], [b[j]], sanitize);
    PropertyEntriesConcat(b[..j] + [b[j]], b[j + 1..], sanitize);
    assert PropertyEntries([b[j]], sanitize) == [PropertyEntry(b[j], sanitize)];
  }

  /** Cutting element `j` out of a sequence removes one occurrence of it
      from the sequence's multiset. */
  lemma MultisetRemove<T>(b: seq<T>, j: int)
    requires 0 <= j < |b|
    ensures multiset(b[..j] + b[j + 1..]) == multiset(b) - multiset{b[j]}
  {
    assert b == b[..j] + [b[j]] + b[j + 1..];
  }

  /** An element between two sequences adds one occurrence of it to their
      multiset. */
  lemma MultisetSplit<T>(x: seq<T>, e: T, y: seq<T>)
    ensures multiset(x + [e] + y) == multiset(x + y) + multiset{e}
  {
  }

  /** Iterating the same properties in another order permutes their
      entries: the same entries, each as often. */
  lemma {:induction false} PropertyEntriesPermute(a: seq<Property>, b: seq<Property>, sanitize: bool)
    requires multiset(a) == multiset(b)
    ensures multiset(PropertyEntries(a, sanitize)) == multiset(PropertyEntries(b, sanitize))
    decreases |a|
  {
    if a == [] {
      assert |b| == |multiset(b)| == 0;
    } else {
      var a0 := a[..|a| - 1];
      var last := a[|a| - 1];
      MultisetRemove(a, |a| - 1);
      assert a[..|a| - 1] + a[|a|..] == a0;
      assert last in multiset(b);
      var j :| 0 <= j < |b| && b[j] == last;
      MultisetRemove(b, j);
      PropertyEntriesPermute(a0, b[..j] + b[j + 1..], sanitize);
      PropertyEntriesSplit(b, j, sanitize);
      PropertyEntriesConcat(b[..j], b[j + 1..], sanitize);
      MultisetSplit(PropertyEntries(b[..j], sanitize), PropertyEntry(last, sanitize), PropertyEntries(b[j + 1..], sanitize));
    }
  }

  /** The order in which the property map is iterated permutes the composed
      environment and nothing more: whatever the order, it holds the same
      entries, each as often, so duplicate entries from keys that sanitize
      to one name are counted too. */
  lemma ComposeEnvPermute(inherited: seq<String>, a: seq<Property>, b: seq<Property>, noSysEnv: bool, sanitize: bool)
    requires multiset(a) == multiset(b)
    ensures multiset(ComposeEnv(inherited, a, noSysEnv, sanitize)) == multiset(ComposeEnv(inherited, b, noSysEnv, sanitize))
  {
    PropertyEntriesPermute(a, b, sanitize);
  }

  /** With sanitization off, distinct keys give distinct variable names;
      with it on they need not (see `SanitizeMergesKeys`). */
  lemma UnsanitizedNamesDistinct(props: seq<Property>)
    requires DistinctKeys(props)
    ensures forall i, j :: 0 <= i < j < |props| ==>
              EnvVarName(props[i].key, false) != EnvVarName(props[j].key, false)
  {
  }
}

/** The scenario document every builder produces: buffer and shader resources, and
    `dispatch_compute` commands whose bindings refer to resources by uid.

    The Python builders append to `scenario["resources"]` and `scenario["commands"]`
    in an interleaved order. A `Scenario` keeps that order as a sequence of steps,
    so "declared before the command that uses it" can be stated; the two JSON
    lists are its projections `Resources` and `Commands`. */
module Scenario {
  import opened Outcome

  datatype Access = ReadOnly | WriteOnly | ReadWrite

  /** A JSON scalar or integer list, as found in the parameter dictionaries. */
  datatype Value = Bool(b: bool) | Int(i: int) | Str(s: string) | Ints(xs: seq<int>)

  type Params = map<string, Value>

  /** Python truthiness of a value: `False`, `0`, `""` and `[]` are false. */
  predicate Truthy(v: Value) {
    match v
    case Bool(b) => b
    case Int(i) => i != 0
    case Str(s) => s != []
    case Ints(xs) => xs != []
  }

  /** `params.get(key)` used as a condition: a missing key reads as `None`, which
      is false. */
  predicate Flag(params: Params, key: string) {
    key in params && Truthy(params[key])
  }

  /** Every shader in the modelled documents has `"type": "SPIR-V"`, so the type is
      left implicit. */
  datatype Resource =
    | Buffer(uid: string, access: Access, size: int, data: Option<string>)
    | Shader(uid: string, src: string, entry: string, optimizations: Option<Params>)

  datatype Binding = Binding(id: nat, descriptorSet: nat, ref: string)

  datatype Dispatch = Dispatch(shaderRef: string, range: seq<int>, bindings: seq<Binding>)

  datatype Step = Declare(resource: Resource) | Issue(command: Dispatch)

  datatype Scenario = Scenario(name: Option<string>, steps: seq<Step>)

  /** `numpy.prod` of a shape; 1 for the empty shape. */
  function Product(shape: seq<int>): int {
    if shape == [] then 1 else shape[0] * Product(shape[1..])
  }

  /** The `resources` list of the document. */
  function Resources(t: seq<Step>): seq<Resource> {
    if t == [] then []
    else (if t[0].Declare? then [t[0].resource] else []) + Resources(t[1..])
  }

  /** The `commands` list of the document. */
  function Commands(t: seq<Step>): seq<Dispatch> {
    if t == [] then []
    else (if t[0].Issue? then [t[0].command] else []) + Commands(t[1..])
  }

  /** The uids declared by the resource steps of `t`. */
  function Declared(t: seq<Step>): set<string> {
    if t == [] then {}
    else (if t[0].Declare? then {t[0].resource.uid} else {}) + Declared(t[1..])
  }

  /** The resource uids a command binds. */
  function Refs(d: Dispatch): set<string> {
    BindingRefs(d.bindings)
  }

  function BindingRefs(bs: seq<Binding>): set<string> {
    if bs == [] then {} else {bs[0].ref} + BindingRefs(bs[1..])
  }

  /** Every command of `t` binds only uids in `known` or declared earlier in `t`. */
  predicate SoundFrom(known: set<string>, t: seq<Step>)
    decreases |t|
  {
    if t == [] then true
    else if t[0].Declare? then SoundFrom(known + {t[0].resource.uid}, t[1..])
    else Refs(t[0].command) <= known && SoundFrom(known, t[1..])
  }

  /** Reference soundness: every binding names a resource declared before the
      command that uses it. */
  predicate ReferenceSound(t: seq<Step>) {
    SoundFrom({}, t)
  }

  /** The weaker, document-level check: every binding names some resource of the
      document, wherever it is declared. */
  predicate Resolves(t: seq<Step>) {
    forall d | d in Commands(t) :: Refs(d) <= Declared(t)
  }

  /** One step in front of a trace. */
  lemma Cons(known: set<string>, x: Step, t: seq<Step>)
    ensures Resources([x] + t) == (if x.Declare? then [x.resource] else []) + Resources(t)
    ensures Commands([x] + t) == (if x.Issue? then [x.command] else []) + Commands(t)
    ensures Declared([x] + t) == (if x.Declare? then {x.resource.uid} else {}) + Declared(t)
    ensures SoundFrom(known, [x] + t) <==>
      if x.Declare? then SoundFrom(known + {x.resource.uid}, t)
      else Refs(x.command) <= known && SoundFrom(known, t)
  {
    assert ([x] + t)[1..] == t;
  }

  lemma BindingsCons(b: Binding, bs: seq<Binding>)
    ensures BindingRefs([b] + bs) == {b.ref} + BindingRefs(bs)
  {
    assert ([b] + bs)[1..] == bs;
  }

  lemma {:induction false} ResourcesAppend(a: seq<Step>, b: seq<Step>)
    ensures Resources(a + b) == Resources(a) + Resources(b)
    decreases |a|
  {
    if a == [] {
      assert a + b == b;
    } else {
      assert (a + b)[1..] == a[1..] + b;
      ResourcesAppend(a[1..], b);
    }
  }

  lemma {:induction false} CommandsAppend(a: seq<Step>, b: seq<Step>)
    ensures Commands(a + b) == Commands(a) + Commands(b)
    decreases |a|
  {
    if a == [] {
      assert a + b == b;
    } else {
      assert (a + b)[1..] == a[1..] + b;
      CommandsAppend(a[1..], b);
    }
  }

  lemma {:induction false} DeclaredAppend(a: seq<Step>, b: seq<Step>)
    ensures Declared(a + b) == Declared(a) + Declared(b)
    decreases |a|
  {
    if a == [] {
      assert a + b == b;
    } else {
      assert (a + b)[1..] == a[1..] + b;
      DeclaredAppend(a[1..], b);
    }
  }

  /** The declared uids are exactly the uids of the `resources` list. */
  lemma {:induction false} DeclaredAreResourceUids(t: seq<Step>)
    ensures Declared(t) == set r | r in Resources(t) :: r.uid
    decreases |t|
  {
    if t != [] {
      DeclaredAreResourceUids(t[1..]);
    }
  }

  /** Soundness of a concatenation splits at the seam: the second part may also use
      what the first part declared. */
  lemma {:induction false} SoundAppend(known: set<string>, a: seq<Step>, b: seq<Step>)
    ensures SoundFrom(known, a + b) <==> SoundFrom(known, a) && SoundFrom(known + Declared(a), b)
    decreases |a|
  {
    if a == [] {
      assert a + b == b;
      assert known + Declared(a) == known;
    } else {
      assert (a + b)[1..] == a[1..] + b;
      var known' := if a[0].Declare? then known + {a[0].resource.uid} else known;
      SoundAppend(known', a[1..], b);
      assert known' + Declared(a[1..]) == known + Declared(a);
    }
  }

  /** Knowing more uids never breaks soundness. */
  lemma {:induction false} SoundMonotone(k1: set<string>, k2: set<string>, t: seq<Step>)
    requires k1 <= k2 && SoundFrom(k1, t)
    ensures SoundFrom(k2, t)
    decreases |t|
  {
    if t != [] {
      if t[0].Declare? {
        SoundMonotone(k1 + {t[0].resource.uid}, k2 + {t[0].resource.uid}, t[1..]);
      } else {
        SoundMonotone(k1, k2, t[1..]);
      }
    }
  }

  /** The recursive definition agrees with the positional one: the command at
      position `i` binds only uids known up front or declared in `t[..i]`. */
  lemma {:induction false} SoundIffDeclaredEarlier(known: set<string>, t: seq<Step>)
    ensures SoundFrom(known, t) <==>
      forall i | 0 <= i < |t| && t[i].Issue? :: Refs(t[i].command) <= known + Declared(t[..i])
    decreases |t|
  {
    if t != [] {
      var known' := if t[0].Declare? then known + {t[0].resource.uid} else known;
      SoundIffDeclaredEarlier(known', t[1..]);
      forall i | 1 <= i < |t|
        ensures known + Declared(t[..i]) == known' + Declared(t[1..][..i - 1])
      {
        assert t[..i] == [t[0]] + t[1..][..i - 1];
        DeclaredAppend([t[0]], t[1..][..i - 1]);
      }
      assert t[..0] == [];
      if SoundFrom(known, t) {
        forall i | 0 <= i < |t| && t[i].Issue?
          ensures Refs(t[i].command) <= known + Declared(t[..i])
        {
          if i > 0 {
            assert t[1..][i - 1] == t[i];
          }
        }
      } else {
        if t[0].Issue? && !(Refs(t[0].command) <= known) {
        } else {
          var j :| 0 <= j < |t[1..]| && t[1..][j].Issue?
            && !(Refs(t[1..][j].command) <= known' + Declared(t[1..][..j]));
          assert t[j + 1] == t[1..][j];
        }
      }
    }
  }

  /** Reference soundness implies the document-level check. */
  lemma {:induction false} SoundResolves(known: set<string>, t: seq<Step>)
    requires SoundFrom(known, t)
    ensures forall d | d in Commands(t) :: Refs(d) <= known + Declared(t)
    decreases |t|
  {
    if t != [] {
      var known' := if t[0].Declare? then known + {t[0].resource.uid} else known;
      SoundResolves(known', t[1..]);
    }
  }

  /** A sound trace stays sound when cut short: the document after any prefix of a
      builder's appends is itself sound. */
  lemma {:induction false} SoundPrefix(known: set<string>, t: seq<Step>, n: nat)
    requires n <= |t| && SoundFrom(known, t)
    ensures SoundFrom(known, t[..n])
  {
    assert t == t[..n] + t[n..];
    SoundAppend(known, t[..n], t[n..]);
  }

  /** The same, for a trace known to be a prefix of a sound one. */
  lemma SoundPrefixOf(known: set<string>, t: seq<Step>, u: seq<Step>)
    requires t <= u
    ensures SoundFrom(known, u) ==> SoundFrom(known, t)
  {
    if SoundFrom(known, u) {
      SoundPrefix(known, u, |t|);
      assert u[..|t|] == t;
    }
  }

  /** A trace that only declares resources is sound whatever is known. */
  lemma {:induction false} DeclaresOnlySound(known: set<string>, t: seq<Step>)
    requires forall i | 0 <= i < |t| :: t[i].Declare?
    ensures SoundFrom(known, t)
    decreases |t|
  {
    if t != [] {
      DeclaresOnlySound(known + {t[0].resource.uid}, t[1..]);
    }
  }

  /** A command binding a uid nobody declared before it breaks soundness. */
  lemma UndeclaredBreaksSoundness(t: seq<Step>, i: nat, r: string)
    requires i < |t| && t[i].Issue? && r in Refs(t[i].command) && r !in Declared(t[..i])
    ensures !ReferenceSound(t)
  {
    SoundIffDeclaredEarlier({}, t);
  }
}

/** Resolving imports to modules. */
module ImportGraph {
  import opened Wrappers
  import opened Segments

  /** `p` is `name` itself or one of the packages it lies in. */
  predicate DottedPrefix(p: string, name: string)
  {
    p <= name && (|p| == |name| || name[|p|] == '.')
  }

  /** The longest dotted prefix of a name that is a module. */
  ghost predicate IsTarget(name: string, modules: set<string>, target: Option<string>)
  {
    match target
    case None => forall p :: p in modules ==> !DottedPrefix(p, name)
    case Some(t) =>
      && t in modules && DottedPrefix(t, name)
      && forall p :: p in modules && DottedPrefix(p, name) ==> |p| <= |t|
  }

  /** Dropping the last parts leaves exactly the dotted prefixes. */
  lemma {:induction false} PrefixesAreParts(p: string, name: string)
    requires DottedPrefix(p, name)
    ensures Split(p, '.') <= Split(name, '.') && p == Join(Split(p, '.'), '.')
  {
    JoinSplit(p, '.');
    if p == "" {
    } else {
      assert p[0] == name[0];
      PrefixesAreParts(p[1..], name[1..]);
    }
  }

  lemma {:induction false} PartsArePrefixes(parts: seq<string>, k: nat)
    requires 1 <= k <= |parts|
    ensures DottedPrefix(Join(parts[..k], '.'), Join(parts, '.'))
    ensures k < |parts| ==> |Join(parts[..k], '.')| < |Join(parts[..k + 1], '.')|
  {
    if k == 1 {
      assert |parts| > 1 ==> parts[..2][1..] == [parts[1]];
    } else {
      PartsArePrefixes(parts[1..], k - 1);
      assert parts[..k][1..] == parts[1..][..k - 1];
      assert k < |parts| ==> parts[..k + 1][1..] == parts[1..][..k];
    }
  }

  lemma {:induction false} MorePartsLonger(parts: seq<string>, i: nat, k: nat)
    requires 1 <= i <= k <= |parts|
    ensures |Join(parts[..i], '.')| <= |Join(parts[..k], '.')|
  {
    if i < k {
      MorePartsLonger(parts, i, k - 1);
      PartsArePrefixes(parts, k - 1);
    }
  }

  /** When no joining of more than `k` parts is a module, a module prefix has at most `k` parts. */
  lemma {:induction false} NoLonger(name: string, modules: set<string>, k: nat, p: string)
    requires 1 <= k <= |Split(name, '.')|
    requires forall j :: k < j <= |Split(name, '.')| ==> Join(Split(name, '.')[..j], '.') !in modules
    requires p in modules && DottedPrefix(p, name)
    ensures |p| <= |Join(Split(name, '.')[..k], '.')|
    ensures Join(Split(name, '.')[..k], '.') !in modules ==> k > 1
  {
    hide DottedPrefix, Join;
    var all := Split(name, '.');
    PrefixesAreParts(p, name);
    var j := |Split(p, '.')|;
    assert all[..j] == Split(p, '.');
    assert j <= k;
    MorePartsLonger(all, j, k);
  }

  method InternalTarget(candidate: string, modules: set<string>) returns (target: Option<string>)
    ensures IsTarget(candidate, modules, target)
  {
    hide DottedPrefix, Join, Split;
    JoinSplit(candidate, '.');
    var parts := Split(candidate, '.');
    ghost var all := parts;
    assert all[..|all|] == all;
    if candidate in modules {
      PartsArePrefixes(all, |all|);
      Longest(candidate, modules, |all|);
      return Some(candidate);
    }
    while |parts| > 1
      invariant 1 <= |parts| <= |all| && parts == all[..|parts|]
      invariant forall k :: |parts| <= k <= |all| ==> Join(all[..k], '.') !in modules
    {
      parts := parts[..|parts| - 1];
      assert parts == all[..|parts|];
      var parent := Join(parts, '.');
      if parent in modules {
        PartsArePrefixes(all, |parts|);
        Longest(candidate, modules, |parts|);
        return Some(parent);
      }
    }
    Longest(candidate, modules, 1);
    return None;
  }

  lemma {:induction false} Longest(name: string, modules: set<string>, k: nat)
    requires 1 <= k <= |Split(name, '.')|
    requires forall j :: k < j <= |Split(name, '.')| ==> Join(Split(name, '.')[..j], '.') !in modules
    ensures forall p :: p in modules && DottedPrefix(p, name) ==> |p| <= |Join(Split(name, '.')[..k], '.')|
    ensures k == 1 && Join(Split(name, '.')[..1], '.') !in modules ==>
      forall p :: p in modules ==> !DottedPrefix(p, name)
  {
    hide DottedPrefix, Join;
    forall p | p in modules && DottedPrefix(p, name)
      ensures |p| <= |Join(Split(name, '.')[..k], '.')|
      ensures Join(Split(name, '.')[..k], '.') !in modules ==> k > 1
    {
      NoLonger(name, modules, k, p);
    }
  }

  lemma TargetUnique(name: string, modules: set<string>, a: Option<string>, b: Option<string>)
    requires IsTarget(name, modules, a) && IsTarget(name, modules, b)
    ensures a == b
  {
    if a.Some? && b.Some? {
      assert a.value == name[..|a.value|] && b.value == name[..|b.value|];
    }
  }

  /** Some of the names resolves to the module. */
  ghost predicate Resolves(names: seq<string>, modules: set<string>, target: string)
  {
    exists name :: name in names && IsTarget(name, modules, Some(target))
  }

  /** Some name that lies in no known module starts with this part. */
  ghost predicate Outside(names: seq<string>, modules: set<string>, head: string)
  {
    exists name :: name in names && IsTarget(name, modules, None) && head == Split(name, '.')[0]
  }

  lemma {:induction false} OneMoreName(
    names: seq<string>, name: string, modules: set<string>, target: Option<string>, x: string)
    requires IsTarget(name, modules, target)
    ensures Resolves(names + [name], modules, x) <==> Resolves(names, modules, x) || target == Some(x)
    ensures Outside(names + [name], modules, x) <==>
      (Outside(names, modules, x) || (target == None && x == Split(name, '.')[0]))
  {
    hide IsTarget;
    assert name in names + [name];
    if n :| n in names + [name] && IsTarget(n, modules, Some(x)) {
      if n == name {
        TargetUnique(name, modules, target, Some(x));
      }
    }
    if n :| n in names + [name] && IsTarget(n, modules, None) && x == Split(n, '.')[0] {
      if n == name {
        TargetUnique(name, modules, target, None);
      }
    }
    if n :| n in names && IsTarget(n, modules, Some(x)) {
      assert n in names + [name];
    }
    if n :| n in names && IsTarget(n, modules, None) && x == Split(n, '.')[0] {
      assert n in names + [name];
    }
  }

  /** What one module's import names resolve to: known modules other than itself, and the heads of the unknown names. */
  method ImportTargets(candidates: seq<string>, self: string, modules: set<string>)
    returns (targets: set<string>, external: set<string>)
    ensures forall t :: t in targets <==> t != self && Resolves(candidates, modules, t)
    ensures forall e :: e in external <==> Outside(candidates, modules, e)
  {
    hide IsTarget, Resolves, Outside;
    targets, external := {}, {};
    NoNames(modules);
    for i := 0 to |candidates|
      invariant forall t :: t in targets <==> t != self && Resolves(candidates[..i], modules, t)
      invariant forall e :: e in external <==> Outside(candidates[..i], modules, e)
    {
      var candidate := candidates[i];
      var target := InternalTarget(candidate, modules);
      assert candidates[..i + 1] == candidates[..i] + [candidate];
      forall x
        ensures Resolves(candidates[..i + 1], modules, x) <==>
          Resolves(candidates[..i], modules, x) || target == Some(x)
        ensures Outside(candidates[..i + 1], modules, x) <==>
          (Outside(candidates[..i], modules, x) || (target == None && x == Split(candidate, '.')[0]))
      {
        OneMoreName(candidates[..i], candidate, modules, target, x);
      }
      if target.Some? && target.value != self {
        targets := targets + {target.value};
      } else if target.None? {
        external := external + {Split(candidate, '.')[0]};
      }
    }
    assert candidates[..|candidates|] == candidates;
  }

  lemma NoNames(modules: set<string>)
    ensures forall x :: !Resolves([], modules, x) && !Outside([], modules, x)
  {
  }
}

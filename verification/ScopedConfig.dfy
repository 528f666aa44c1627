/** Configuration with scopes: config.py. */
module ScopedConfig {
  import opened Wrappers

  /** More specific scopes have higher ranks. */
  datatype Scope = Application | ApplicationOverride | Benchmark | TestProcedure | Invocation

  function Rank(scope: Scope): nat {
    match scope
    case Application => 1
    case ApplicationOverride => 2
    case Benchmark => 3
    case TestProcedure => 4
    case Invocation => 5
  }

  function Enclosing(scope: Scope): (outer: Scope)
    requires scope != Application
    ensures Rank(outer) == Rank(scope) - 1
  {
    match scope
    case ApplicationOverride => Application
    case Benchmark => ApplicationOverride
    case TestProcedure => Benchmark
    case Invocation => TestProcedure
  }

  datatype Key = Key(scope: Scope, section: string, name: string)

  /** Options may hold any value; some are None. */
  type Options = map<Key, Option<string>>

  /** The key of an option; no scope means the application's. */
  function KeyOf(scope: Option<Scope>, section: string, name: string): Key {
    Key(if scope.None? then Application else scope.value, section, name)
  }

  // ----- resolution scope by scope

  function ResolveScope(opts: Options, section: string, name: string, from: Scope): Scope
    decreases Rank(from)
  {
    if Key(from, section, name) in opts then from
    else if from == Application then Application
    else ResolveScope(opts, section, name, Enclosing(from))
  }

  /** The value of an option, if there is any; otherwise the program raises an error or takes the default. */
  function Resolve(opts: Options, section: string, name: string): Option<Option<string>> {
    var key := Key(ResolveScope(opts, section, name, Invocation), section, name);
    if key in opts then Some(opts[key]) else None
  }

  /** The most specific scope that has the option. */
  ghost predicate MostSpecific(opts: Options, section: string, name: string, scope: Scope) {
    Key(scope, section, name) in opts
    && forall s: Scope :: Rank(s) > Rank(scope) ==> Key(s, section, name) !in opts
  }

  lemma {:induction false} ResolveScopeIsMostSpecific(opts: Options, section: string, name: string, from: Scope)
    requires forall s: Scope :: Rank(s) > Rank(from) ==> Key(s, section, name) !in opts
    ensures var scope := ResolveScope(opts, section, name, from);
            if Key(scope, section, name) in opts then MostSpecific(opts, section, name, scope)
            else forall s: Scope :: Key(s, section, name) !in opts
    decreases Rank(from)
  {
    if Key(from, section, name) !in opts && from != Application {
      forall s: Scope | Rank(s) > Rank(Enclosing(from)) ensures Key(s, section, name) !in opts {
        SameRank(s, from);
      }
      ResolveScopeIsMostSpecific(opts, section, name, Enclosing(from));
    } else if Key(from, section, name) !in opts {
      forall s: Scope ensures Key(s, section, name) !in opts {
        SameRank(s, from);
      }
    }
  }

  lemma {:induction false} SameRank(a: Scope, b: Scope)
    ensures Rank(a) == Rank(b) ==> a == b
    ensures Rank(a) >= 1 && Rank(a) <= Rank(Invocation)
  {
  }

  /** Resolution finds a value exactly if some scope has one, and takes that of the most specific. */
  lemma {:induction false} ResolveMeans(opts: Options, section: string, name: string, scope: Scope)
    ensures Resolve(opts, section, name).None? ==> Key(scope, section, name) !in opts
    ensures MostSpecific(opts, section, name, scope) ==>
              Resolve(opts, section, name) == Some(opts[Key(scope, section, name)])
  {
    forall s: Scope ensures Rank(s) <= Rank(Invocation) {
      SameRank(s, Invocation);
    }
    ResolveScopeIsMostSpecific(opts, section, name, Invocation);
    var found := ResolveScope(opts, section, name, Invocation);
    if MostSpecific(opts, section, name, scope) {
      SameRank(scope, found);
    }
  }

  /** The scopes by name, the most specific first. */
  lemma {:induction false} ResolveInOrder(opts: Options, section: string, name: string)
    ensures Resolve(opts, section, name) ==
            if Key(Invocation, section, name) in opts then Some(opts[Key(Invocation, section, name)])
            else if Key(TestProcedure, section, name) in opts then Some(opts[Key(TestProcedure, section, name)])
            else if Key(Benchmark, section, name) in opts then Some(opts[Key(Benchmark, section, name)])
            else if Key(ApplicationOverride, section, name) in opts then
              Some(opts[Key(ApplicationOverride, section, name)])
            else if Key(Application, section, name) in opts then Some(opts[Key(Application, section, name)])
            else None
  {
    ResolveMeans(opts, section, name, Invocation);
    ResolveMeans(opts, section, name, TestProcedure);
    ResolveMeans(opts, section, name, Benchmark);
    ResolveMeans(opts, section, name, ApplicationOverride);
    ResolveMeans(opts, section, name, Application);
    forall s: Scope ensures Rank(s) <= 5 && Rank(s) >= 1 {
      SameRank(s, Invocation);
    }
  }

  /** Setting an option decides its value exactly if no more specific scope has it, and touches no other option. */
  lemma {:induction false} AddedIsResolved(opts: Options, scope: Scope, section: string, name: string,
                                           value: Option<string>, 
                                           section': string, name': string)
    ensures var added := opts[Key(scope, section, name) := value];
            if section' == section && name' == name
               && forall s: Scope :: Rank(s) > Rank(scope) ==> Key(s, section, name) !in opts
            then Resolve(added, section', name') == Some(value)
            else Resolve(added, section', name') == Resolve(opts, section', name')
  {
    var added := opts[Key(scope, section, name) := value];
    if section' == section && name' == name {
      if s: Scope :| Rank(s) > Rank(scope) && Key(s, section, name) in opts {
        SameAbove(opts, added, section, name, Invocation, s);
      } else {
        ResolveMeans(added, section, name, scope);
      }
    } else {
      SameResolution(opts, added, section', name', Invocation);
    }
  }

  /** A setting without a scope gives way to one of any other scope. */
  lemma {:induction false} AddedWithoutScope(opts: Options, section: string, name: string, value: Option<string>)
    ensures Resolve(opts[KeyOf(None, section, name) := value], section, name) == Some(value)
            || exists s: Scope :: s != Application && Key(s, section, name) in opts
    ensures (exists s: Scope :: s != Application && Key(s, section, name) in opts) ==>
              Resolve(opts[KeyOf(None, section, name) := value], section, name) == Resolve(opts, section, name)
  {
    AddedIsResolved(opts, Application, section, name, value, section, name);
    forall s: Scope ensures Rank(s) > Rank(Application) <==> s != Application {
      SameRank(s, Application);
    }
    hide Resolve;
  }

  lemma {:induction false} SameResolution(a: Options, b: Options, section: string, name: string, from: Scope)
    requires forall s: Scope :: Key(s, section, name) in a <==> Key(s, section, name) in b
    ensures ResolveScope(a, section, name, from) == ResolveScope(b, section, name, from)
    decreases Rank(from)
  {
    if from != Application {
      SameResolution(a, b, section, name, Enclosing(from));
    }
  }

  /** Scopes below one that has the option do not matter. */
  lemma {:induction false} SameAbove(a: Options, b: Options, section: string, name: string, from: Scope, s: Scope)
    requires Rank(s) <= Rank(from) && Key(s, section, name) in a && Key(s, section, name) in b
    requires forall t: Scope :: Rank(t) >= Rank(s) ==> (Key(t, section, name) in a <==> Key(t, section, name) in b)
    ensures ResolveScope(a, section, name, from) == ResolveScope(b, section, name, from)
    ensures Rank(ResolveScope(a, section, name, from)) >= Rank(s)
    decreases Rank(from)
  {
    SameRank(s, from);
    if Key(from, section, name) !in a {
      SameAbove(a, b, section, name, Enclosing(from), s);
    }
  }

  // ----- the program

  class Config {
    var opts: Options

    constructor (opts: Options)
      ensures this.opts == opts
    {
      this.opts := opts;
    }

    method Add(scope: Option<Scope>, section: string, name: string, value: Option<string>)
      modifies this
      ensures opts == old(opts)[KeyOf(scope, section, name) := value]
    {
      opts := opts[KeyOf(scope, section, name) := value];
    }

    /** All options of a section of another configuration, visited in any order. */
    method AddAll(source: Config, section: string)
      modifies this
      ensures forall k :: k in opts <==> k in old(opts) || (k in old(source.opts) && k.section == section)
      ensures forall k :: k in opts ==>
                opts[k] == if k in old(source.opts) && k.section == section then old(source.opts)[k] else old(opts)[k]
    {
      var all := source.opts;
      var rest := all.Keys;
      while rest != {}
        invariant rest <= all.Keys
        invariant forall k :: k in opts <==> k in old(opts) || (k in all && k !in rest && k.section == section)
        invariant forall k :: k in opts ==>
                    opts[k] == if k in all && k !in rest && k.section == section then all[k] else old(opts)[k]
      {
        var k :| k in rest;
        rest := rest - {k};
        if k.section == section {
          Add(Some(k.scope), k.section, k.name, all[k]);
        }
      }
    }

    method Opts(section: string, name: string, default: Option<string>, mandatory: bool)
        returns (value: Result<Option<string>, string>)
      ensures value == match Resolve(opts, section, name)
                       case Some(v) => Ok(v)
                       case None => if mandatory then value else Ok(default)
      ensures value.Err? <==> Resolve(opts, section, name).None? && mandatory
    {
      var key := Key(ResolveScope(opts, section, name, Invocation), section, name);
      if key in opts {
        return Ok(opts[key]);
      }
      return if mandatory then Err("no value for mandatory configuration") else Ok(default);
    }

    /** All options of a section in one pass over the map, in any order: the same as resolving each name. */
    method AllOpts(section: string) returns (inSection: map<string, Option<string>>)
      ensures forall name :: name in inSection <==> Resolve(opts, section, name).Some?
      ensures forall name :: name in inSection ==> Resolve(opts, section, name) == Some(inSection[name])
    {
      inSection := map[];
      var scopes: map<string, Scope> := map[];
      var rest := opts.Keys;
      while rest != {}
        invariant rest <= opts.Keys && scopes.Keys == inSection.Keys
        invariant forall k :: k in opts && k !in rest && k.section == section ==>
                    k.name in inSection && Rank(k.scope) <= Rank(scopes[k.name])
        invariant forall name :: name in inSection ==>
                    var k := Key(scopes[name], section, name); k in opts && k !in rest && inSection[name] == opts[k]
      {
        var k :| k in rest;
        rest := rest - {k};
        if k.section == section {
          if k.name !in inSection || Rank(scopes[k.name]) < Rank(k.scope) {
            inSection := inSection[k.name := opts[k]];
            scopes := scopes[k.name := k.scope];
          }
        }
      }
      forall name ensures name in inSection <==> Resolve(opts, section, name).Some?
                  ensures name in inSection ==> Resolve(opts, section, name) == Some(inSection[name])
      {
        if name in inSection {
          assert MostSpecific(opts, section, name, scopes[name]);
          ResolveMeans(opts, section, name, scopes[name]);
        }
      }
    }
  }
}

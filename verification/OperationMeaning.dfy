/** What a converted operation says to Solr: its type, its body and its configset, and what is written to body files. */
module OperationMeaning {
  import opened Wrappers
  import opened OperationConversion

  // ----- where things are looked up

  /** The type of an operation is under one of two keys; the first that says something counts. */
  lemma {:induction false} TypeIs(op: Dict)
    ensures Truthy(Lookup(op, "operation-type")) ==> TypeOf(op) == op["operation-type"]
    ensures !Truthy(Lookup(op, "operation-type")) ==> TypeOf(op) == if "type" in op then op["type"] else Str("")
  {
  }

  /** Aggregations too: a search is removed whichever key has its histogram. */
  lemma {:induction false} HistogramUnderEitherKey(env: Env, op: Dict, body: seq<Field>, key: string,
                                                   aggs: seq<Field>, path: seq<nat>)
    requires Search(TypeOf(op)) && Lookup(op, "body") == Some(Obj(body)) && Get(body, key) == Some(Obj(aggs))
    requires key == "aggs" || (key == "aggregations" && !Truthy(Get(body, "aggs")))
    requires AutoAt(aggs, path) && HasAutoDateHistogram(aggs).Some?
    ensures Converted(env, op) == Removed
  {
    if HasAutoDateHistogram(aggs) == Some(false) {
      NotFoundIsNotThere(aggs, path);
    }
    hide TypeOf;
  }

  // ----- types

  /** The new name of an operation type, if it has one. */
  function InSolr(t: Value): Value {
    if t == Str("bulk") || t == Str("index") then Str("bulk-index")
    else if t == Str("force-merge") then Str("optimize")
    else if t == Str("create-index") then Str("create-collection")
    else if t == Str("delete-index") then Str("delete-collection")
    else t
  }

  lemma {:induction false} RenamedInSolr(t: Value)
    ensures NewType(t) == InSolr(t)
    ensures InSolr(t) != t <==> t.Str? && t.s in Supported && Supported[t.s] != t.s
  {
  }

  /** In a kept operation the type has its new name, and a second key with the type has it, too. */
  lemma {:induction false} TypeInSolr(env: Env, op: Dict)
    requires Converted(env, op).Kept?
    ensures var after, t := Converted(env, op).op, TypeOf(op);
            && TypeOf(after) == InSolr(t)
            && Lookup(after, "operation-type") == (if InSolr(t) != t then Some(InSolr(t))
                                                   else Lookup(op, "operation-type"))
            && Lookup(after, "type") == (if InSolr(t) != t && Lookup(op, "type") == Some(t) then Some(InSolr(t))
                                         else Lookup(op, "type"))
  {
    hide Supported;
    RenamedInSolr(TypeOf(op));
    var t := TypeOf(op);
    var renamed := RenameType(op, t);
    assert Lookup(renamed, "operation-type") == (if InSolr(t) != t then Some(InSolr(t))
                                                 else Lookup(op, "operation-type"));
    assert Lookup(renamed, "type") == (if InSolr(t) != t && Lookup(op, "type") == Some(t) then Some(InSolr(t))
                                       else Lookup(op, "type"));
    KeptSameType(env, op);
    TypeIsRenamed(op);
    hide RenameType, Converted, Lookup, InSolr, NewType;
  }

  /** After the types are renamed nothing changes them. */
  lemma {:induction false} KeptSameType(env: Env, op: Dict)
    requires Converted(env, op).Kept?
    ensures SameType(RenameType(op, TypeOf(op)), Converted(env, op).op)
    ensures TypeOf(Converted(env, op).op) == TypeOf(RenameType(op, TypeOf(op)))
  {
    var t := TypeOf(op);
    var renamed := RenameType(op, t);
    var moved := Move(renamed, "index", "collection");
    var moved2 := Move(moved, "indices", "collection");
    MoveKeeps(renamed, "index", "collection");
    MoveKeeps(moved, "indices", "collection");
    InjectKeeps(env, moved2, t);
    MoveKeeps(InjectConfigset(env, moved2, t).value, "max-num-segments", "max-segments");
    hide RenameType, Move, InjectConfigset;
    KeptIsFinal(env, op);
    TranslatedIsFinal(env, Prepared(env, op, t).value, t);
  }

  /** The number of segments is renamed for one type of operation only. */
  lemma {:induction false} SegmentsInSolr(env: Env, op: Dict)
    requires Converted(env, op).Kept?
    ensures var after, merge := Converted(env, op).op, TypeOf(op) == Str("force-merge") && "max-num-segments" in op;
            && Lookup(after, "max-segments") == Lookup(op, if merge then "max-num-segments" else "max-segments")
            && Lookup(after, "max-num-segments") == if merge then None else Lookup(op, "max-num-segments")
  {
    hide TypeOf, RenameType, InjectConfigset;
    var t := TypeOf(op);
    var moved := Move(Move(RenameType(op, t), "index", "collection"), "indices", "collection");
    SegmentsStay(env, op, t);
    var configured := InjectConfigset(env, moved, t).value;
    MoveMeans(configured, "max-num-segments", "max-segments", "max-segments");
    MoveMeans(configured, "max-num-segments", "max-segments", "max-num-segments");
    hide Move;
  }

  lemma {:induction false} SegmentsStay(env: Env, op: Dict, t: Value)
    ensures var moved := Move(Move(RenameType(op, t), "index", "collection"), "indices", "collection");
            InjectConfigset(env, moved, t).Some? ==>
              var configured := InjectConfigset(env, moved, t).value;
              && Lookup(configured, "max-segments") == Lookup(op, "max-segments")
              && Lookup(configured, "max-num-segments") == Lookup(op, "max-num-segments")
  {
    var renamed := RenameType(op, t);
    assert Lookup(renamed, "max-segments") == Lookup(op, "max-segments");
    assert Lookup(renamed, "max-num-segments") == Lookup(op, "max-num-segments");
    hide RenameType;
    MovedTwice(renamed, "max-segments");
    MovedTwice(renamed, "max-num-segments");
    hide Move, Join, Truthy;
  }

  // ----- bodies

  predicate Search(t: Value) {
    t == Str("search") || t == Str("paginated-search") || t == Str("scroll-search")
  }

  predicate HasQuery(body: Value) {
    body.Obj? && Get(body.fields, "query").Some? && Get(body.fields, "query").value.Obj?
  }

  ghost predicate AreStrings(items: seq<Value>, strings: seq<string>) {
    |items| == |strings| && forall i :: 0 <= i < |items| ==> items[i] == Str(strings[i])
  }

  /** A request in the JSON language of Solr: a query, and of the other keys just those that have something to say. */
  ghost predicate Requests(v: Value, b: SolrBody) {
    && v.Obj?
    && Get(v.fields, "query") == Some(Str(b.query))
    && (if b.filter == [] then Get(v.fields, "filter") == None
        else exists items :: Get(v.fields, "filter") == Some(Arr(items)) && AreStrings(items, b.filter))
    && Get(v.fields, "limit") == b.limit
    && Get(v.fields, "sort") == (if b.sort.Some? then Some(Str(b.sort.value)) else None)
    && Get(v.fields, "facet") == (if b.facet == [] then None else Some(Obj(b.facet)))
    && forall key :: Get(v.fields, key).Some? ==> key in {"query", "filter", "limit", "sort", "facet"}
  }

  lemma {:induction false} StringsAre(strings: seq<string>)
    ensures AreStrings(Strings(strings), strings)
  {
    if strings != [] {
      StringsAre(strings[1..]);
    }
  }

  /** Looking up a key in two lists of fields, one after the other. */
  lemma {:induction false} GetInBoth(a: seq<Field>, b: seq<Field>, key: string)
    ensures Get(a + b, key) == if Get(a, key).Some? then Get(a, key) else Get(b, key)
  {
    if a == [] {
      assert a + b == b;
    } else {
      assert (a + b)[1..] == a[1..] + b;
      GetInBoth(a[1..], b, key);
    }
  }

  lemma {:induction false} BodyRequests(b: SolrBody)
    ensures Requests(BodyOf(b), b)
  {
    StringsAre(b.filter);
    forall key ensures Get(BodyOf(b).fields, key) == KeyOf(b, key) {
      BodyKey(b, key);
    }
    hide Get, BodyOf, Strings;
    assert Get(BodyOf(b).fields, "filter") == KeyOf(b, "filter");
  }

  lemma {:induction false} BodyKey(b: SolrBody, key: string)
    ensures BodyOf(b).Obj? && Get(BodyOf(b).fields, key) == KeyOf(b, key)
  {
    hide Get, Strings;
    var query := [Field("query", Str(b.query))];
    var filter := if b.filter == [] then [] else [Field("filter", Arr(Strings(b.filter)))];
    var limit := Optional("limit", b.limit);
    var sort := if b.sort.Some? then [Field("sort", Str(b.sort.value))] else [];
    var facet := if b.facet == [] then [] else [Field("facet", Obj(b.facet))];
    assert BodyOf(b).fields == query + filter + limit + sort + facet;
    hide BodyOf;
    GetInBoth(query + filter + limit + sort, facet, key);
    GetInBoth(query + filter + limit, sort, key);
    GetInBoth(query + filter, limit, key);
    GetInBoth(query, filter, key);
    OneField(query, key);
    OneField(filter, key);
    OneField(limit, key);
    OneField(sort, key);
    OneField(facet, key);
  }

  function KeyOf(b: SolrBody, key: string): Option<Value> {
    if key == "query" then Some(Str(b.query))
    else if key == "filter" && b.filter != [] then Some(Arr(Strings(b.filter)))
    else if key == "limit" then b.limit
    else if key == "sort" && b.sort.Some? then Some(Str(b.sort.value))
    else if key == "facet" && b.facet != [] then Some(Obj(b.facet))
    else None
  }

  lemma {:induction false} OneField(fields: seq<Field>, key: string)
    requires |fields| <= 1
    ensures Get(fields, key) == if fields != [] && fields[0].key == key then Some(fields[0].value) else None
  {
  }

  /** The body of a search that is kept is translated, if it has a query that can be; every other body is as it was. */
  lemma {:induction false} BodyInSolr(env: Env, op: Dict)
    requires Converted(env, op).Kept?
    ensures var before, after := Lookup(op, "body"), Lookup(Converted(env, op).op, "body");
            if Search(TypeOf(op)) && before.Some? && HasQuery(before.value)
               && env.translate(before.value.fields).Some?
            then after.Some? && Requests(after.value, env.translate(before.value.fields).value)
            else after == before
  {
    KeptIsFinal(env, op);
    var before := Lookup(op, "body");
    if before.Some? && HasQuery(before.value) && env.translate(before.value.fields).Some? {
      BodyRequests(env.translate(before.value.fields).value);
    }
    hide Requests, Prepared, Final, BodyOf;
  }

  // ----- configsets

  function ConfigsetDir(env: Env, collection: string): string {
    Join(Join(env.absOutputDir, "configsets"), collection)
  }

  predicate HasConfigset(env: Env, op: Dict) {
    && TypeOf(op) == Str("create-index") && env.outputDir != ""
    && CreatedCollection(op).value.Str? && CreatedCollection(op).value.s != ""
    && env.isDir(ConfigsetDir(env, CreatedCollection(op).value.s))
  }

  function Default(v: Option<Value>, other: string): Option<Value> {
    if v.Some? then v else Some(Str(other))
  }

  /** A collection that is created gets the name and the path of its configset, if there is one, unless it says so
      itself; other operations are given neither. */
  lemma {:induction false} ConfigsetInSolr(env: Env, op: Dict)
    requires Converted(env, op).Kept?
    ensures var after := Converted(env, op).op;
            if HasConfigset(env, op) then
              var collection := CreatedCollection(op).value.s;
              && Lookup(after, "configset") == Default(Lookup(op, "configset"), collection)
              && Lookup(after, "configset-path")
                 == Default(Lookup(op, "configset-path"), ConfigsetDir(env, collection))
            else
              Lookup(after, "configset") == Lookup(op, "configset")
              && Lookup(after, "configset-path") == Lookup(op, "configset-path")
  {
    var t := TypeOf(op);
    MovedKeeps(op, t);
    var moved := Move(Move(RenameType(op, t), "index", "collection"), "indices", "collection");
    Injected(env, op, moved, t);
    hide TypeOf, RenameType, Move, InjectConfigset, Join;
    var configured := InjectConfigset(env, moved, t).value;
    MoveMeans(configured, "max-num-segments", "max-segments", "configset");
    MoveMeans(configured, "max-num-segments", "max-segments", "configset-path");
  }

  lemma {:induction false} MovedKeeps(op: Dict, t: Value)
    ensures var moved := Move(Move(RenameType(op, t), "index", "collection"), "indices", "collection");
            && Lookup(moved, "collection") == CollectionOf(op) && Lookup(moved, "name") == Lookup(op, "name")
            && Lookup(moved, "configset") == Lookup(op, "configset")
            && Lookup(moved, "configset-path") == Lookup(op, "configset-path")
  {
    var renamed := RenameType(op, t);
    assert Lookup(renamed, "index") == Lookup(op, "index") && Lookup(renamed, "indices") == Lookup(op, "indices")
           && Lookup(renamed, "collection") == Lookup(op, "collection") && Lookup(renamed, "name") == Lookup(op, "name")
           && Lookup(renamed, "configset") == Lookup(op, "configset")
           && Lookup(renamed, "configset-path") == Lookup(op, "configset-path");
    hide RenameType;
    MovedTwice(renamed, "name");
    MovedTwice(renamed, "configset");
    MovedTwice(renamed, "configset-path");
    MovedTwice(renamed, "collection");
    hide Move;
  }

  lemma {:induction false} MovedTwice(op: Dict, key: string)
    requires key !in {"index", "indices"}
    ensures Lookup(Move(Move(op, "index", "collection"), "indices", "collection"), key)
            == if key == "collection" then CollectionOf(op) else Lookup(op, key)
  {
    MoveMeans(op, "index", "collection", key);
    MoveMeans(op, "index", "collection", "indices");
    MoveMeans(Move(op, "index", "collection"), "indices", "collection", key);
  }

  lemma {:induction false} Injected(env: Env, op: Dict, moved: Dict, t: Value)
    requires t == TypeOf(op) && InjectConfigset(env, moved, t).Some?
    requires Lookup(moved, "collection") == CollectionOf(op) && Lookup(moved, "name") == Lookup(op, "name")
    ensures var after := InjectConfigset(env, moved, t).value;
            if HasConfigset(env, op) then
              var collection := CreatedCollection(op).value.s;
              && Lookup(after, "configset") == Default(Lookup(moved, "configset"), collection)
              && Lookup(after, "configset-path")
                 == Default(Lookup(moved, "configset-path"), ConfigsetDir(env, collection))
            else
              Lookup(after, "configset") == Lookup(moved, "configset")
              && Lookup(after, "configset-path") == Lookup(moved, "configset-path")
  {
    hide Join, TypeOf;
  }

  // ----- body files

  /** The file that a search takes its body from. */
  ghost predicate Refers(op: Dict, file: string) {
    var params := Lookup(op, "body-params");
    params.Some? && params.value.Obj? && Get(params.value.fields, "body") == Some(Str(file))
    && file != "" && file[0] != '{'
  }

  /** A body file that exists and has a query that can be translated is written to the output, translated; nothing else
      is written, and nothing else is said of it. */
  lemma {:induction false} BodyFileInSolr(env: Env, op: Dict, disk: map<string, Content>, file: string)
    requires Search(TypeOf(op)) && Refers(op, file)
    ensures var from, to, (after, issues) :=
              Join(env.sourceDir, file), Join(env.outputDir, file), Effects(env, op, disk);
            if from !in disk then after == disk && FileIssue(file) !in issues
            else if !disk[from].Json? || !disk[from].value.Obj? then after == disk && FileIssue(file) in issues
            else if !HasQuery(disk[from].value) then after == disk && FileIssue(file) !in issues
            else if env.translate(disk[from].value.fields).None? || Join(env.outputDir, DirName(file)) == ""
            then after == disk && FileIssue(file) in issues
            else
              && to in after && after[to].Json?
              && Requests(after[to].value, env.translate(disk[from].value.fields).value)
              && after.Keys == disk.Keys + {to} && (forall f :: f in disk && f != to ==> after[f] == disk[f])
              && FileIssue(file) !in issues
  {
    BodyFileIs(op, file);
    var from := Join(env.sourceDir, file);
    if from in disk && disk[from].Json? && disk[from].value.Obj? && env.translate(disk[from].value.fields).Some? {
      BodyRequests(env.translate(disk[from].value.fields).value);
    }
    hide Join, DirName, BodyOf, Requests, BodyFile, TypeOf, BodyFails;
  }

  lemma {:induction false} BodyFileIs(op: Dict, file: string)
    requires Refers(op, file)
    ensures BodyFile(op) == Some(file)
  {
  }

  /** Other operations write nothing. */
  lemma {:induction false} NoBodyFile(env: Env, op: Dict, disk: map<string, Content>)
    requires !Search(TypeOf(op)) || forall file :: !Refers(op, file)
    ensures Effects(env, op, disk).0 == disk && forall file :: FileIssue(file) !in Effects(env, op, disk).1
  {
    if BodyFile(op).Some? {
      assert Refers(op, BodyFile(op).value);
    }
  }

  /** A query of a search that cannot be translated is reported, with the name of the operation. */
  lemma {:induction false} FailureInSolr(env: Env, op: Dict, disk: map<string, Content>)
    ensures (exists name :: BodyIssue(name) in Effects(env, op, disk).1)
            <==> Search(TypeOf(op)) && Lookup(op, "body").Some? && HasQuery(Lookup(op, "body").value)
                 && env.translate(Lookup(op, "body").value.fields).None?
    ensures forall name :: BodyIssue(name) in Effects(env, op, disk).1 ==> name == Lookup(op, "name")
  {
    hide BodyFile, TypeOf, Join, DirName;
    var issues := Effects(env, op, disk).1;
    if BodyFails(env, op, TypeOf(op)) {
      assert issues[0] == BodyIssue(Lookup(op, "name"));
      assert BodyIssue(Lookup(op, "name")) in issues;
    }
  }

  // ----- lists of operations

  /** Operations are converted one by one, in order. */
  lemma {:induction false} KeptInOrder(env: Env, a: seq<Element>, b: seq<Element>)
    ensures KeptOf(env, a + b) == KeptOf(env, a) + KeptOf(env, b)
    decreases |b|
  {
    hide Converted;
    if b == [] {
      assert a + b == a;
    } else {
      var n := |b| - 1;
      assert (a + b)[..|a + b| - 1] == a + b[..n];
      KeptInOrder(env, a, b[..n]);
    }
  }

  lemma {:induction false} KeptAlone(env: Env, element: Element)
    ensures KeptOf(env, [element]) ==
            if element.OtherElement? then [element]
            else match Converted(env, element.op)
                 case Kept(op) => [Definition(op)]
                 case _ => []
  {
    hide Converted;
    assert [element][..0] == [];
  }
}

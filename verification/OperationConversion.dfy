/** Converting operation definitions in place: conversion/workload_converter.py, _convert_operation and its callers. */
module OperationConversion {
  import opened Wrappers

  // ----- JSON values

  datatype Value =
    | Null
    | Bool(b: bool)
    | Num(n: int)
    | Str(s: string)
    | Arr(items: seq<Value>)
    | Obj(fields: seq<Field>)

  datatype Field = Field(key: string, value: Value)

  type Dict = map<string, Value>

  function Size(v: Value): nat {
    if v.Obj? then 1 + SizeOf(v.fields) else 0
  }

  function SizeOf(fields: seq<Field>): nat {
    if fields == [] then 0 else 1 + Size(fields[0].value) + SizeOf(fields[1..])
  }

  /** dict.get */
  function Get(fields: seq<Field>, key: string): (v: Option<Value>)
    ensures v.Some? ==> Size(v.value) < SizeOf(fields)
  {
    if fields == [] then None else if fields[0].key == key then Some(fields[0].value) else Get(fields[1..], key)
  }

  function Lookup(op: Dict, key: string): Option<Value> {
    if key in op then Some(op[key]) else None
  }

  predicate Truthy(v: Option<Value>) {
    v.Some? &&
    match v.value
    case Null => false
    case Bool(b) => b
    case Num(n) => n != 0
    case Str(s) => s != ""
    case Arr(items) => items != []
    case Obj(fields) => fields != []
  }

  /** Python's or */
  function Or(a: Option<Value>, b: Option<Value>): Option<Value> {
    if Truthy(a) then a else b
  }

  function AggsOf(fields: seq<Field>): (v: Option<Value>)
    ensures v.Some? ==> Size(v.value) < SizeOf(fields)
  {
    Or(Get(fields, "aggs"), Get(fields, "aggregations"))
  }

  /** Whether an aggregation at any level is an auto_date_histogram; an error if nested aggregations are no
      dictionary. */
  function HasAutoDateHistogram(aggs: seq<Field>): Option<bool>
    decreases SizeOf(aggs)
  {
    if aggs == [] then Some(false)
    else if !aggs[0].value.Obj? then HasAutoDateHistogram(aggs[1..])
    else
      var def := aggs[0].value.fields;
      assert Size(aggs[0].value) == 1 + SizeOf(def);
      if Get(def, "auto_date_histogram").Some? then Some(true)
      else
        var nested := AggsOf(def);
        var inNested := if !Truthy(nested) then Some(false)
                        else if nested.value.Obj? then HasAutoDateHistogram(nested.value.fields)
                        else None;
        if inNested == Some(false) then HasAutoDateHistogram(aggs[1..]) else inNested
  }

  // ----- translated bodies

  /** What the query translation makes of a body: the query is always a string. */
  datatype SolrBody = SolrBody(query: string, filter: seq<string>, limit: Option<Value>, sort: Option<string>,
      facet: seq<Field>)

  function Optional(key: string, v: Option<Value>): seq<Field> {
    if v.Some? then [Field(key, v.value)] else []
  }

  function BodyOf(b: SolrBody): Value {
    Obj([Field("query", Str(b.query))]
        + (if b.filter == [] then [] else [Field("filter", Arr(Strings(b.filter)))])
        + Optional("limit", b.limit)
        + (if b.sort.Some? then [Field("sort", Str(b.sort.value))] else [])
        + (if b.facet == [] then [] else [Field("facet", Obj(b.facet))]))
  }

  function Strings(s: seq<string>): seq<Value> {
    if s == [] then [] else [Str(s[0])] + Strings(s[1..])
  }

  /** The translation, which fails on some bodies, and the directories: which of them exist, and the absolute path
      of the output directory. */
  datatype Env = Env(translate: seq<Field> -> Option<SolrBody>, isDir: string -> bool,
                     sourceDir: string, outputDir: string, absOutputDir: string)

  // ----- one operation

  const Supported := map[
    "bulk" := "bulk-index", "index" := "bulk-index", "search" := "search", "force-merge" := "optimize",
    "create-index" := "create-collection", "delete-index" := "delete-collection", "raw-request" := "raw-request",
    "sleep" := "sleep"]

  const Unsupported := {
    "cluster-health", "wait-for-recovery", "wait-for-snapshot-create", "restore-snapshot", "create-snapshot",
    "delete-snapshot-repository", "create-snapshot-repository", "put-settings", "create-transform", "start-transform",
    "delete-transform", "create-data-stream", "delete-data-stream", "create-index-template", "delete-index-template",
    "shrink-index", "put-pipeline", "delete-pipeline"}

  const Searches := {"search", "paginated-search", "scroll-search"}

  function TypeOf(op: Dict): Value {
    var t := Or(Lookup(op, "operation-type"), Lookup(op, "type"));
    if t.Some? then t.value else Str("")
  }

  /** The result of the conversion: a kept operation as it then is, one to be removed, or an exception. */
  datatype Verdict = Kept(op: Dict) | Removed | Raised

  predicate IsSearch(t: Value) {
    t.Str? && t.s in Searches
  }

  /** The aggregations of a search body; an error if they are no dictionary. */
  function AutoDateHistogramIn(op: Dict): Option<bool> {
    var body := Lookup(op, "body");
    if body.None? || !body.value.Obj? then Some(false)
    else
      var aggs := AggsOf(body.value.fields);
      if !Truthy(aggs) then Some(false)
      else if aggs.value.Obj? then HasAutoDateHistogram(aggs.value.fields)
      else None
  }

  function RenameType(op: Dict, t: Value): Dict {
    if t.Str? && t.s in Supported && Supported[t.s] != t.s then
      var renamed := op["operation-type" := Str(Supported[t.s])];
      if "type" in op && renamed["type"] == t then renamed["type" := Str(Supported[t.s])] else renamed
    else op
  }

  /** op[to] = op.pop(from), if it is there */
  function Move(op: Dict, from: string, to: string): Dict {
    if from in op then (op - {from})[to := op[from]] else op
  }

  function SetDefault(op: Dict, key: string, v: Value): Dict {
    if key in op then op else op[key := v]
  }

  /** The configset of a created collection; an error if its name is no string. */
  function InjectConfigset(env: Env, op: Dict, t: Value): Option<Dict> {
    if t != Str("create-index") || env.outputDir == "" then Some(op)
    else
      var collection := if "collection" in op then Lookup(op, "collection")
                        else if "name" in op then Lookup(op, "name") else Some(Str(""));
      if !Truthy(collection) then Some(op)
      else if !collection.value.Str? then None
      else
        var dir := Join(Join(env.absOutputDir, "configsets"), collection.value.s);
        if env.isDir(dir) then
          Some(SetDefault(SetDefault(op, "configset-path", Str(dir)), "configset", collection.value))
        else Some(op)
  }

  function TranslateBody(env: Env, op: Dict, t: Value): Dict {
    var body := Lookup(op, "body");
    if IsSearch(t) && body.Some? && body.value.Obj? && Get(body.value.fields, "query").Some?
       && Get(body.value.fields, "query").value.Obj? && env.translate(body.value.fields).Some?
    then op["body" := BodyOf(env.translate(body.value.fields).value)]
    else op
  }

  /** All but the body converted. */
  function Prepared(env: Env, op: Dict, t: Value): Option<Dict> {
    var renamed := Move(Move(RenameType(op, t), "index", "collection"), "indices", "collection");
    var configured := InjectConfigset(env, renamed, t);
    if configured.None? then None
    else Some(if t == Str("force-merge") then Move(configured.value, "max-num-segments", "max-segments")
      else configured.value)
  }

  function Converted(env: Env, op: Dict): Verdict {
    var t := TypeOf(op);
    if t.Arr? || t.Obj? then Raised
    else if t.Str? && t.s in Unsupported then Removed
    else if IsSearch(t) && AutoDateHistogramIn(op).None? then Raised
    else if IsSearch(t) && AutoDateHistogramIn(op).value then Removed
    else
      var prepared := Prepared(env, op, t);
      if prepared.None? then Raised else Kept(TranslateBody(env, prepared.value, t))
  }

  // ----- converting again changes nothing

  /** The same operation type. */
  ghost predicate SameType(a: Dict, b: Dict) {
    Lookup(a, "operation-type") == Lookup(b, "operation-type") && Lookup(a, "type") == Lookup(b, "type")
  }

  /** The same name, body and body parameters. */
  ghost predicate SameBody(a: Dict, b: Dict) {
    && Lookup(a, "body") == Lookup(b, "body") && Lookup(a, "body-params") == Lookup(b, "body-params")
    && Lookup(a, "name") == Lookup(b, "name")
  }

  lemma {:induction false} MoveKeeps(op: Dict, from: string, to: string)
    requires to == "collection" || to == "max-segments"
    requires from == "index" || from == "indices" || from == "max-num-segments"
    ensures var moved := Move(op, from, to);
            && SameType(op, moved) && from !in moved
            && (forall key :: key in moved ==> key in op || key == to)
            && SameBody(op, moved)
  {
  }

  lemma {:induction false} InjectKeeps(env: Env, op: Dict, t: Value)
    requires InjectConfigset(env, op, t).Some?
    ensures var configured := InjectConfigset(env, op, t).value;
            && SameType(op, configured)
            && (forall key :: key in configured ==> key in op || key == "configset" || key == "configset-path")
            && SameBody(op, configured)
  {
  }

  /** The type once converted: renamed if it has another name in Solr. */
  function NewType(t: Value): Value {
    if t.Str? && t.s in Supported then Str(Supported[t.s]) else t
  }

  lemma {:induction false} TypeIsRenamed(op: Dict)
    ensures var renamed := RenameType(op, TypeOf(op));
            TypeOf(renamed) == NewType(TypeOf(op)) && SameBody(op, renamed)
  {
  }

  /** No type is both old and new, and none becomes unsupported or a search by renaming. */
  lemma {:induction false} NewTypeIsFinal(t: Value)
    ensures NewType(NewType(t)) == NewType(t) && (IsSearch(NewType(t)) ==> NewType(t) == t)
    ensures t.Str? && t.s !in Unsupported ==> NewType(t).s !in Unsupported
    ensures NewType(t) != Str("create-index") && NewType(t) != Str("force-merge")
  {
  }

  /** A translated body is no query of the source language: it is not translated again, and has no aggregations. */
  lemma {:induction false} BodyOfIsFinal(b: SolrBody)
    ensures BodyOf(b).Obj? && Get(BodyOf(b).fields, "query") == Some(Str(b.query))
    ensures AggsOf(BodyOf(b).fields) == None
  {
    var fields := BodyOf(b).fields;
    assert fields[0] == Field("query", Str(b.query));
    forall i | 0 <= i < |fields| ensures fields[i].key !in {"aggs", "aggregations"} {
    }
    GetAbsent(fields, "aggs");
    GetAbsent(fields, "aggregations");
  }

  lemma {:induction false} GetAbsent(fields: seq<Field>, key: string)
    requires forall i :: 0 <= i < |fields| ==> fields[i].key != key
    ensures Get(fields, key) == None
  {
    if fields != [] {
      GetAbsent(fields[1..], key);
    }
  }

  /** Nothing is left to convert. */
  ghost predicate Final(op: Dict) {
    var t := TypeOf(op);
    && !t.Arr? && !t.Obj? && NewType(t) == t && t != Str("create-index") && t != Str("force-merge")
    && (t.Str? ==> t.s !in Unsupported)
    && "index" !in op && "indices" !in op
    && (IsSearch(t) ==> AutoDateHistogramIn(op) == Some(false))
  }

  lemma {:induction false} FinalIsKept(env: Env, op: Dict)
    requires Final(op)
    ensures Converted(env, op) == Kept(TranslateBody(env, op, TypeOf(op)))
  {
  }

  lemma {:induction false} TranslatedIsFinal(env: Env, op: Dict, t: Value)
    requires Final(op) && (IsSearch(t) <==> IsSearch(TypeOf(op)))
    ensures var translated := TranslateBody(env, op, t);
            Final(translated) && SameType(op, translated) && TranslateBody(env, translated, t) == translated
  {
    var body := Lookup(op, "body");
    var translated := TranslateBody(env, op, t);
    if translated != op {
      BodyOfIsFinal(env.translate(body.value.fields).value);
    }
  }

  /** The keys that preparing looks at no more, once it is done. */
  ghost predicate Renamed(op: Dict, prepared: Dict) {
    && SameBody(op, prepared) && TypeOf(prepared) == NewType(TypeOf(op))
    && "index" !in prepared && "indices" !in prepared
  }

  lemma {:induction false} PreparedIsRenamed(env: Env, op: Dict)
    requires Prepared(env, op, TypeOf(op)).Some?
    ensures Renamed(op, Prepared(env, op, TypeOf(op)).value)
  {
    var t := TypeOf(op);
    TypeIsRenamed(op);
    var renamed := RenameType(op, t);
    hide RenameType, NewType, Move, InjectConfigset;
    MoveKeeps(renamed, "index", "collection");
    var moved := Move(renamed, "index", "collection");
    MoveKeeps(moved, "indices", "collection");
    var moved2 := Move(moved, "indices", "collection");
    InjectKeeps(env, moved2, t);
    MoveKeeps(InjectConfigset(env, moved2, t).value, "max-num-segments", "max-segments");
  }

  /** A kept operation has nothing left to convert but its body, which is then translated. */
  lemma {:induction false} KeptIsFinal(env: Env, op: Dict)
    requires Converted(env, op).Kept?
    ensures var prepared := Prepared(env, op, TypeOf(op)).value;
            Final(prepared) && (IsSearch(TypeOf(op)) <==> IsSearch(TypeOf(prepared))) && SameBody(op, prepared)
  {
    hide Prepared, RenameType;
    PreparedIsRenamed(env, op);
    NewTypeIsFinal(TypeOf(op));
  }

  /** Converting an operation twice is converting it once, whatever the directories; what is kept stays kept. */
  lemma {:induction false} ConvertTwice(env: Env, again: Env, op: Dict)
    requires env.translate == again.translate
    requires Converted(env, op).Kept?
    ensures Converted(again, Converted(env, op).op) == Converted(env, op)
  {
    KeptIsFinal(env, op);
    TranslatedIsFinal(env, Prepared(env, op, TypeOf(op)).value, TypeOf(op));
    FinalIsKept(again, Converted(env, op).op);
  }

  /** The keys that a conversion may set or remove. */
  const Touched := {"operation-type", "type", "index", "indices", "collection", "configset", "configset-path",
                    "max-num-segments", "max-segments", "body"}

  function CollectionOf(op: Dict): Option<Value> {
    if "indices" in op then Lookup(op, "indices")
    else if "index" in op then Lookup(op, "index")
    else Lookup(op, "collection")
  }

  lemma {:induction false} MoveMeans(op: Dict, from: string, to: string, key: string)
    requires from != to
    ensures Lookup(Move(op, from, to), key) == if key == from then None
                                               else if key == to && from in op then Lookup(op, from)
                                               else Lookup(op, key)
  {
  }

  /** What becomes of the collection and of the keys that have nothing to do with the conversion. */
  lemma {:induction false} KeptMeans(env: Env, op: Dict, key: string)
    requires Converted(env, op).Kept?
    ensures Lookup(Converted(env, op).op, "collection") == CollectionOf(op)
    ensures key !in Touched ==> Lookup(Converted(env, op).op, key) == Lookup(op, key)
    ensures TypeOf(Converted(env, op).op) == NewType(TypeOf(op))
    ensures "index" !in Converted(env, op).op && "indices" !in Converted(env, op).op
    ensures TypeOf(op) == Str("force-merge") && "max-num-segments" in op ==>
              "max-num-segments" !in Converted(env, op).op
              && Lookup(Converted(env, op).op, "max-segments") == Lookup(op, "max-num-segments")
  {
    KeptIsFinal(env, op);
    PreparedIsRenamed(env, op);
    PreparedMeans(env, op, "max-segments");
    PreparedMeans(env, op, "max-num-segments");
    TranslatedIsFinal(env, Prepared(env, op, TypeOf(op)).value, TypeOf(op));
    PreparedMeans(env, op, "collection");
    PreparedMeans(env, op, key);
  }

  lemma {:induction false} PreparedMeans(env: Env, op: Dict, key: string)
    requires Prepared(env, op, TypeOf(op)).Some?
    ensures var prepared := Prepared(env, op, TypeOf(op)).value;
            && (key == "collection" ==> Lookup(prepared, key) == CollectionOf(op))
            && (key !in Touched ==> Lookup(prepared, key) == Lookup(op, key))
            && (TypeOf(op) == Str("force-merge") && "max-num-segments" in op ==>
                  (key == "max-num-segments" ==> Lookup(prepared, key) == None)
                  && (key == "max-segments" ==> Lookup(prepared, key) == Lookup(op, "max-num-segments")))
  {
    hide TypeOf, Move;
    var t := TypeOf(op);
    var renamed := RenameType(op, t);
    var moved := Move(renamed, "index", "collection");
    var moved2 := Move(moved, "indices", "collection");
    MoveMeans(renamed, "index", "collection", key);
    MoveMeans(renamed, "index", "collection", "indices");
    MoveMeans(moved, "indices", "collection", key);
    MoveMeans(InjectConfigset(env, moved2, t).value, "max-num-segments", "max-segments", key);
    MoveMeans(renamed, "index", "collection", "max-num-segments");
    MoveMeans(moved, "indices", "collection", "max-num-segments");
  }

  // ----- what an aggregation search finds

  /** An auto_date_histogram at the end of a path through nested aggregations. */
  ghost predicate AutoAt(aggs: seq<Field>, path: seq<nat>)
    decreases |path|
  {
    && path != [] && path[0] < |aggs| && aggs[path[0]].value.Obj?
    && var def := aggs[path[0]].value.fields;
       if |path| == 1 then Get(def, "auto_date_histogram").Some?
       else Truthy(AggsOf(def)) && AggsOf(def).value.Obj? && AutoAt(AggsOf(def).value.fields, path[1..])
  }

  lemma {:induction false} FoundIsThere(aggs: seq<Field>) returns (path: seq<nat>)
    requires HasAutoDateHistogram(aggs) == Some(true)
    ensures AutoAt(aggs, path)
    decreases SizeOf(aggs)
  {
    var v := aggs[0].value;
    if v.Obj? && Get(v.fields, "auto_date_histogram").Some? {
      path := [0];
    } else if v.Obj? && Truthy(AggsOf(v.fields)) && HasAutoDateHistogram(AggsOf(v.fields).value.fields) == Some(true) {
      assert Size(v) == 1 + SizeOf(v.fields);
      var nested := AggsOf(v.fields).value;
      assert Size(nested) == 1 + SizeOf(nested.fields);
      var tail := FoundIsThere(nested.fields);
      path := [0] + tail;
      assert path[1..] == tail;
    } else {
      var rest := FoundIsThere(aggs[1..]);
      path := [rest[0] + 1] + rest[1..];
      assert path[1..] == rest[1..];
    }
  }

  lemma {:induction false} NotFoundIsNotThere(aggs: seq<Field>, path: seq<nat>)
    requires HasAutoDateHistogram(aggs) == Some(false)
    ensures !AutoAt(aggs, path)
    decreases SizeOf(aggs)
  {
    if AutoAt(aggs, path) {
      var v := aggs[0].value;
      if path[0] > 0 {
        var rest := [path[0] - 1] + path[1..];
        assert rest[1..] == path[1..];
        NotFoundIsNotThere(aggs[1..], rest);
      } else if |path| > 1 {
        assert Size(v) == 1 + SizeOf(v.fields);
        var nested := AggsOf(v.fields).value;
        assert Size(nested) == 1 + SizeOf(nested.fields);
        NotFoundIsNotThere(nested.fields, path[1..]);
      }
    }
  }

  // ----- body files and reports

  datatype Content = Json(value: Value) | NotJson

  datatype Issue = BodyIssue(name: Option<Value>) | FileIssue(file: string)

  /** os.path.join */
  function Join(a: string, b: string): string {
    if "/" <= b || a == "" then b else if a[|a| - 1] == '/' then a + b else a + "/" + b
  }

  /** os.path.dirname of a path without doubled slashes */
  function DirName(path: string): string {
    if path == "" then "" else if path[|path| - 1] == '/' then path[..|path| - 1] else DirName(path[..|path| - 1])
  }

  function BodyFile(op: Dict): Option<string> {
    var params := Lookup(op, "body-params");
    if params.None? || !params.value.Obj? then None
    else
      var file := Get(params.value.fields, "body");
      if Truthy(file) && file.value.Str? && !("{" <= file.value.s) then Some(file.value.s) else None
  }

  /** The files once a referenced body file is translated; an error is reported, not raised. */
  function TranslateFile(env: Env, disk: map<string, Content>, file: string): Result<map<string, Content>, Issue> {
    var from := Join(env.sourceDir, file);
    if from !in disk then Ok(disk)
    else if disk[from].NotJson? || !disk[from].value.Obj? then Err(FileIssue(file))
    else
      var body := disk[from].value.fields;
      if Get(body, "query").None? || !Get(body, "query").value.Obj? then Ok(disk)
      else if env.translate(body).None? || Join(env.outputDir, DirName(file)) == "" then Err(FileIssue(file))
      else Ok(disk[Join(env.outputDir, file) := Json(BodyOf(env.translate(body).value))])
  }

  predicate BodyFails(env: Env, op: Dict, t: Value) {
    var body := Lookup(op, "body");
    IsSearch(t) && body.Some? && body.value.Obj? && Get(body.value.fields, "query").Some?
    && Get(body.value.fields, "query").value.Obj? && env.translate(body.value.fields).None?
  }

  /** What a conversion that keeps its operation writes, and what it reports. */
  function Effects(env: Env, op: Dict, disk: map<string, Content>): (map<string, Content>, seq<Issue>) {
    var t := TypeOf(op);
    var issues := if BodyFails(env, op, t) then [BodyIssue(Lookup(op, "name"))] else [];
    var file := BodyFile(op);
    if !IsSearch(t) || file.None? then (disk, issues)
    else
      var written := TranslateFile(env, disk, file.value);
      if written.Ok? then (written.value, issues) else (disk, issues + [written.error])
  }

  /** A body file is translated once too, also where it is overwritten in place; a failure is reported again. */
  lemma {:induction false} EffectsTwice(env: Env, op: Dict, disk: map<string, Content>)
    requires Converted(env, op).Kept?
    ensures var (disk1, issues) := Effects(env, op, disk);
            Effects(env, Converted(env, op).op, disk1) == (disk1, issues)
  {
    KeptIsFinal(env, op);
    var t := TypeOf(op);
    var before := Prepared(env, op, t).value;
    TranslatedIsFinal(env, before, t);
    var after := Converted(env, op).op;
    TranslatedKeepsRest(env, before, t);
    assert Lookup(after, "name") == Lookup(op, "name") && BodyFile(after) == BodyFile(op);
    if IsSearch(t) && BodyFile(op).Some? {
      FileTwice(env, disk, BodyFile(op).value);
    }
  }

  lemma {:induction false} TranslatedKeepsRest(env: Env, op: Dict, t: Value)
    ensures var translated := TranslateBody(env, op, t);
            && Lookup(translated, "name") == Lookup(op, "name")
            && Lookup(translated, "body-params") == Lookup(op, "body-params")
            && BodyFails(env, translated, t) == BodyFails(env, op, t)
  {
    var body := Lookup(op, "body");
    if TranslateBody(env, op, t) != op {
      BodyOfIsFinal(env.translate(body.value.fields).value);
    }
  }

  lemma {:induction false} FileTwice(env: Env, disk: map<string, Content>, file: string)
    ensures var once := TranslateFile(env, disk, file);
            once.Ok? ==> TranslateFile(env, once.value, file) == once
  {
    hide Join, DirName, BodyOf;
    var from, to := Join(env.sourceDir, file), Join(env.outputDir, file);
    if from in disk && disk[from].Json? && disk[from].value.Obj? && env.translate(disk[from].value.fields).Some? {
      var body := BodyOf(env.translate(disk[from].value.fields).value);
      BodyOfIsFinal(env.translate(disk[from].value.fields).value);
      assert disk[to := Json(body)][to := Json(body)] == disk[to := Json(body)];
    }
  }

  lemma {:induction false} SameBodySameEffects(env: Env, op: Dict, prepared: Dict, t: Value)
    requires SameBody(op, prepared)
    ensures BodyFails(env, op, t) == BodyFails(env, prepared, t)
    ensures BodyFails(env, prepared, t) ==> TranslateBody(env, prepared, t) == prepared
    ensures BodyFile(op) == BodyFile(prepared) == BodyFile(TranslateBody(env, prepared, t))
  {
    TranslatedKeepsRest(env, prepared, t);
  }

  // ----- the program

  /** An operation definition: a dictionary changed in place. */
  class Operation {
    var fields: Dict

    constructor (fields: Dict)
      ensures this.fields == fields
    {
      this.fields := fields;
    }

    /** Convert in place; an operation that is not kept is left as it was. */
    method Convert(env: Env, disk: map<string, Content>, issues: seq<Issue>)
      returns (kept: Result<bool, string>, disk': map<string, Content>, issues': seq<Issue>)
      modifies this
      ensures kept == match Converted(env, old(fields))
                      case Kept(_) => Ok(true)
                      case Removed => Ok(false)
                      case Raised => kept
      ensures kept.Err? <==> Converted(env, old(fields)).Raised?
      ensures Converted(env, old(fields)).Kept? ==>
                && fields == Converted(env, old(fields)).op
                && disk' == Effects(env, old(fields), disk).0
                && issues' == issues + Effects(env, old(fields), disk).1
      ensures Converted(env, old(fields)).Removed? ==> fields == old(fields) && disk' == disk && issues' == issues
    {
      disk', issues' := disk, issues;
      var t := TypeOf(fields);
      if t.Arr? || t.Obj? {
        return Err("unhashable operation type"), disk', issues';
      }
      if t.Str? && t.s in Unsupported {
        return Ok(false), disk', issues';
      }
      if IsSearch(t) {
        var auto := AutoDateHistogramIn(fields);
        if auto.None? {
          return Err("aggregations are no dictionary"), disk', issues';
        }
        if auto.value {
          return Ok(false), disk', issues';
        }
      }
      ghost var op := fields;
      var configured := Prepare(env, t);
      if !configured {
        return Err("collection name is no string"), disk', issues';
      }
      PreparedIsRenamed(env, op);
      hide Prepared, TranslateBody, BodyFails, TranslateFile, TypeOf, AutoDateHistogramIn;
      if IsSearch(t) {
        SameBodySameEffects(env, op, fields, t);
        if BodyFails(env, fields, t) {
          issues' := issues' + [BodyIssue(Lookup(fields, "name"))];
        } else {
          fields := TranslateBody(env, fields, t);
        }
        var file := BodyFile(fields);
        if file.Some? {
          var written := TranslateFile(env, disk', file.value);
          match written {
            case Ok(files) => disk' := files;
            case Err(issue) => issues' := issues' + [issue];
          }
        }
      }
      return Ok(true), disk', issues';
    }

    /** The first steps of the conversion: types, keys and the configset. */
    method Prepare(env: Env, t: Value) returns (ok: bool)
      requires t == TypeOf(fields)
      modifies this
      ensures ok <==> Prepared(env, old(fields), t).Some?
      ensures ok ==> fields == Prepared(env, old(fields), t).value
    {
      hide Supported;
      if t.Str? && t.s in Supported && Supported[t.s] != t.s {
        fields := fields["operation-type" := Str(Supported[t.s])];
        if "type" in fields && fields["type"] == t {
          fields := fields["type" := Str(Supported[t.s])];
        }
      }
      assert fields == RenameType(old(fields), t);
      hide RenameType, InjectConfigset;
      ghost var renamed := fields;
      if "index" in fields {
        fields := (fields - {"index"})["collection" := fields["index"]];
      }
      assert fields == Move(renamed, "index", "collection");
      renamed := fields;
      if "indices" in fields {
        fields := (fields - {"indices"})["collection" := fields["indices"]];
      }
      assert fields == Move(renamed, "indices", "collection");
      var configured := InjectConfigset(env, fields, t);
      if configured.None? {
        return false;
      }
      fields := configured.value;
      if t == Str("force-merge") && "max-num-segments" in fields {
        fields := (fields - {"max-num-segments"})["max-segments" := fields["max-num-segments"]];
      }
      return true;
    }
  }

  /** An element of the operations list, which need not be a dictionary. */
  datatype Element = Definition(op: Dict) | OtherElement

  /** A task of the schedules: it names an operation, holds one, or neither. */
  datatype Task = Named(name: string) | Inline(op: Dict) | OtherTask

  /** The operations that are kept, each converted once. */
  function KeptOf(env: Env, elements: seq<Element>): seq<Element> {
    if elements == [] then []
    else
      var n := |elements| - 1;
      KeptOf(env, elements[..n])
      + match elements[n]
        case OtherElement => [OtherElement]
        case Definition(op) => if Converted(env, op).Kept? then [Definition(Converted(env, op).op)] else []
  }

  /** A task with its operation converted; one that cannot be kept stays in the schedule as it is. */
  function TaskOf(env: Env, task: Task): Task {
    if task.Inline? && Converted(env, task.op).Kept? then Inline(Converted(env, task.op).op) else task
  }

  /** The position of the first operation with a name, or the number of elements. */
  function Find(elements: seq<Element>, name: string): (i: nat)
    ensures i <= |elements| && (i < |elements| ==> elements[i].Definition?)
  {
    if elements == [] then 0
    else if elements[0].Definition? && Lookup(elements[0].op, "name") == Some(Str(name)) then 0
    else 1 + Find(elements[1..], name)
  }

  /** Nothing left to convert in any operation. */
  ghost predicate AllConverted(env: Env, elements: seq<Element>) {
    forall i :: 0 <= i < |elements| && elements[i].Definition? ==>
      Converted(env, elements[i].op) == Kept(elements[i].op)
  }

  lemma {:induction false} KeptAreConverted(env: Env, elements: seq<Element>)
    ensures AllConverted(env, KeptOf(env, elements))
  {
    if elements != [] {
      var n := |elements| - 1;
      KeptAreConverted(env, elements[..n]);
      if elements[n].Definition? && Converted(env, elements[n].op).Kept? {
        ConvertTwice(env, env, elements[n].op);
      }
      hide Converted;
    }
  }

  /** Where sources and output are in one place, every file is what it was or its translation: none is translated
      twice. */
  ghost predicate TranslatedOnce(env: Env, before: map<string, Content>, after: map<string, Content>) {
    before.Keys == after.Keys && forall f :: f in after ==>
        after[f] == before[f] || TranslationOf(env, before[f], after[f])
  }

  ghost predicate TranslationOf(env: Env, before: Content, after: Content) {
    && before.Json? && before.value.Obj? && env.translate(before.value.fields).Some?
    && after == Json(BodyOf(env.translate(before.value.fields).value))
  }

  lemma {:induction false} EffectsTranslateOnce(env: Env, op: Dict, before: map<string, Content>,
                                                disk: map<string, Content>)
    requires env.sourceDir == "" && env.outputDir == "" && TranslatedOnce(env, before, disk)
    ensures TranslatedOnce(env, before, Effects(env, op, disk).0)
  {
    if BodyFile(op).Some? {
      FileTranslatedOnce(env, BodyFile(op).value, before, disk);
    }
  }

  lemma {:induction false} FileTranslatedOnce(env: Env, file: string, before: map<string, Content>,
                                              disk: map<string, Content>)
    requires env.sourceDir == "" && env.outputDir == "" && TranslatedOnce(env, before, disk)
    ensures TranslateFile(env, disk, file).Ok? ==> TranslatedOnce(env, before, TranslateFile(env, disk, file).value)
  {
    hide BodyOf, DirName;
    assert Join("", file) == file;
    if file in disk && disk[file] != before[file] {
      BodyOfIsFinal(env.translate(before[file].value.fields).value);
    }
  }

  /** A workload with its operations inline, and all schedules one after the other. */
  class InlineWorkload {
    const env: Env
    var operations: seq<Element>
    var tasks: seq<Task>
    var disk: map<string, Content>
    var issues: seq<Issue>

    constructor (env: Env, operations: seq<Element>, tasks: seq<Task>, disk: map<string, Content>)
      ensures this.env == env && this.operations == operations && this.tasks == tasks && this.disk == disk
    {
      this.env, this.operations, this.tasks, this.disk, this.issues := env, operations, tasks, disk, [];
    }

    method ConvertOne(op: Dict) returns (verdict: Verdict)
      requires env.sourceDir == "" && env.outputDir == ""
      modifies this`disk, this`issues
      ensures verdict == Converted(env, op)
      ensures forall before :: TranslatedOnce(env, before, old(disk)) ==> TranslatedOnce(env, before, disk)
    {
      var definition := new Operation(op);
      var kept, files, reports := definition.Convert(env, disk, issues);
      if kept.Err? {
        return Raised;
      }
      forall before | TranslatedOnce(env, before, old(disk))
        ensures TranslatedOnce(env, before, files)
      {
        EffectsTranslateOnce(env, op, before, old(disk));
      }
      disk, issues := files, reports;
      verdict := if kept.value then Kept(definition.fields) else Removed;
    }

    /** Convert the operations, then those that schedules refer to, named ones a second time. */
    method Convert() returns (ok: bool)
      requires env.sourceDir == "" && env.outputDir == ""
      modifies this
      ensures ok ==> operations == KeptOf(env, old(operations))
      ensures ok ==> |tasks| == |old(tasks)| && forall i :: 0 <= i < |tasks| ==> tasks[i] == TaskOf(env, old(tasks)[i])
      ensures ok <==> (forall i :: 0 <= i < |old(operations)| && old(operations)[i].Definition? ==>
                         !Converted(env, old(operations)[i].op).Raised?)
                      && (forall i :: 0 <= i < |old(tasks)| && old(tasks)[i].Inline? ==>
                            !Converted(env, old(tasks)[i].op).Raised?)
      ensures TranslatedOnce(env, old(disk), disk)
    {
      hide Converted;
      var kept := [];
      for k := 0 to |operations|
        invariant operations == old(operations) && tasks == old(tasks)
        invariant kept == KeptOf(env, operations[..k])
        invariant forall i :: 0 <= i < k && operations[i].Definition? ==> !Converted(env, operations[i].op).Raised?
        invariant TranslatedOnce(env, old(disk), disk)
      {
        var element := operations[k];
        assert operations[..k + 1][..k] == operations[..k];
        if element.OtherElement? {
          kept := kept + [element];
        } else {
          var verdict := ConvertOne(element.op);
          match verdict {
            case Raised => return false;
            case Removed =>
            case Kept(op) => kept := kept + [Definition(op)];
          }
        }
      }
      assert operations[..|operations|] == operations;
      KeptAreConverted(env, operations);
      operations := kept;
      for k := 0 to |tasks|
        invariant operations == kept && |tasks| == |old(tasks)|
        invariant forall i :: 0 <= i < k ==> tasks[i] == TaskOf(env, old(tasks)[i])
        invariant forall i :: k <= i < |tasks| ==> tasks[i] == old(tasks)[i]
        invariant forall i :: 0 <= i < k && old(tasks)[i].Inline? ==> !Converted(env, old(tasks)[i].op).Raised?
        invariant TranslatedOnce(env, old(disk), disk)
      {
        match tasks[k] {
          case OtherTask =>
          case Named(name) =>
            var i := Find(operations, name);
            if i < |operations| {
              var verdict := ConvertOne(operations[i].op);
              operations := operations[i := Definition(verdict.op)];
            }
          case Inline(op) =>
            var verdict := ConvertOne(op);
            match verdict {
              case Raised => return false;
              case Removed =>
              case Kept(op') => tasks := tasks[k := Inline(op')];
            }
        }
      }
      return true;
    }
  }

  /** An operation without an equivalent: of an unsupported type, or a search with an auto_date_histogram. */
  predicate Rejected(op: Dict) {
    var t := TypeOf(op);
    (t.Str? && t.s in Unsupported) || (IsSearch(t) && AutoDateHistogramIn(op) == Some(true))
  }

  /** The collection that a create-index operation is about, by the time its configset is looked for. */
  function CreatedCollection(op: Dict): Option<Value> {
    if CollectionOf(op).Some? then CollectionOf(op) else if "name" in op then Lookup(op, "name") else Some(Str(""))
  }

  /** An operation that the conversion chokes on: its type cannot be looked up, the aggregations of a search are no
      dictionaries, or the name of a collection to create is no string. */
  predicate Malformed(env: Env, op: Dict) {
    var t := TypeOf(op);
    || t.Arr? || t.Obj?
    || (IsSearch(t) && AutoDateHistogramIn(op) == None)
    || (t == Str("create-index") && env.outputDir != "" && Truthy(CreatedCollection(op))
      && !CreatedCollection(op).value.Str?)
  }

  /** When an operation is removed, when an exception is raised, and so when it is kept. */
  lemma {:induction false} VerdictExactlyWhen(env: Env, op: Dict)
    ensures Converted(env, op).Removed? <==> Rejected(op)
    ensures Converted(env, op).Raised? <==> Malformed(env, op)
    ensures Converted(env, op).Kept? <==> !Rejected(op) && !Malformed(env, op)
  {
    var t := TypeOf(op);
    if t == Str("create-index") {
      var renamed := RenameType(op, t);
      MoveMeans(renamed, "index", "collection", "collection");
      MoveMeans(renamed, "index", "collection", "indices");
      MoveMeans(renamed, "index", "collection", "name");
      var moved := Move(renamed, "index", "collection");
      MoveMeans(moved, "indices", "collection", "collection");
      MoveMeans(moved, "indices", "collection", "name");
    }
    hide Move;
  }

  predicate Bears(element: Element, name: string) {
    element.Definition? && Lookup(element.op, "name") == Some(Str(name))
  }

  lemma {:induction false} FindFinds(elements: seq<Element>, name: string)
    ensures Find(elements, name) < |elements| <==> exists i :: 0 <= i < |elements| && Bears(elements[i], name)
  {
    if elements != [] {
      FindFinds(elements[1..], name);
      if i :| 0 <= i < |elements| && Bears(elements[i], name) {
        assert i > 0 ==> Bears(elements[1..][i - 1], name);
      }
      if i :| 0 <= i < |elements[1..]| && Bears(elements[1..][i], name) {
        assert Bears(elements[i + 1], name);
      }
      assert Bears(elements[0], name) || !Bears(elements[0], name);
    }
  }

  /** What is kept bears the names of the operations that are kept. */
  lemma {:induction false} KeptNames(env: Env, elements: seq<Element>, name: string)
    ensures (exists i :: 0 <= i < |KeptOf(env, elements)| && Bears(KeptOf(env, elements)[i], name))
            <==> exists i :: 0 <= i < |elements| && Bears(elements[i], name) && Converted(env, elements[i].op).Kept?
  {
    if elements != [] {
      var n := |elements| - 1;
      KeptNames(env, elements[..n], name);
      if elements[n].Definition? && Converted(env, elements[n].op).Kept? {
        KeptKeepsName(env, elements[n].op);
      }
      hide Converted, Lookup;
      var before, kept := KeptOf(env, elements[..n]), KeptOf(env, elements);
      assert kept[..|before|] == before && |kept| <= |before| + 1;
      LastBears(env, elements, before, kept, name);
    }
  }

  lemma {:induction false} LastBears(env: Env, elements: seq<Element>, before: seq<Element>, kept: seq<Element>,
                                     name: string)
    requires elements != [] && var n := |elements| - 1;
             && before <= kept && |kept| <= |before| + 1
             && ((exists i :: 0 <= i < |before| && Bears(before[i], name))
                 <==> exists i :: (0 <= i < n && Bears(elements[..n][i], name)
                                   && Converted(env, elements[..n][i].op).Kept?))
             && ((|kept| > |before| && Bears(kept[|before|], name))
                 <==> Bears(elements[n], name) && Converted(env, elements[n].op).Kept?)
    ensures (exists i :: 0 <= i < |kept| && Bears(kept[i], name))
            <==> exists i :: 0 <= i < |elements| && Bears(elements[i], name) && Converted(env, elements[i].op).Kept?
  {
    hide Converted, Lookup;
    var n := |elements| - 1;
    if i :| 0 <= i < |kept| && Bears(kept[i], name) {
      if i < |before| {
        assert Bears(before[i], name);
        var j :| 0 <= j < n && Bears(elements[..n][j], name) && Converted(env, elements[..n][j].op).Kept?;
        assert elements[..n][j] == elements[j];
      }
    }
    if i :| 0 <= i < |elements| && Bears(elements[i], name) && Converted(env, elements[i].op).Kept? {
      if i < n {
        assert Bears(elements[..n][i], name) && Converted(env, elements[..n][i].op).Kept?;
        var j :| 0 <= j < |before| && Bears(before[j], name);
        assert Bears(kept[j], name);
      }
    }
  }

  /** After a conversion a task that names an operation still does, and finds one exactly if one of that name has an
      equivalent. The others are removed, and the name leads nowhere. */
  lemma {:induction false} NameIsFoundExactlyWhen(env: Env, elements: seq<Element>, name: string)
    ensures TaskOf(env, Named(name)) == Named(name)
    ensures Find(KeptOf(env, elements), name) < |KeptOf(env, elements)|
            <==> exists i :: 0 <= i < |elements| && Bears(elements[i], name)
                             && !Rejected(elements[i].op) && !Malformed(env, elements[i].op)
  {
    FindFinds(KeptOf(env, elements), name);
    KeptNames(env, elements, name);
    forall i | 0 <= i < |elements| && Bears(elements[i], name)
      ensures Converted(env, elements[i].op).Kept? <==> !Rejected(elements[i].op) && !Malformed(env, elements[i].op)
    {
      VerdictExactlyWhen(env, elements[i].op);
    }
    hide Converted, Rejected, Malformed, Bears;
  }

  lemma {:induction false} KeptKeepsName(env: Env, op: Dict)
    requires Converted(env, op).Kept?
    ensures Lookup(Converted(env, op).op, "name") == Lookup(op, "name")
  {
    KeptIsFinal(env, op);
    TranslatedKeepsRest(env, Prepared(env, op, TypeOf(op)).value, TypeOf(op));
  }
}

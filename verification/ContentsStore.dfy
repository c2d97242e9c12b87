/** The compare-and-swap contents store: a PUT to an existing path must name the sha that is stored. */
module ContentsStore {
  import opened Wrappers

  // `Issued(n)` is the sha that the n-th successful PUT returned; any other text a client may send.
  datatype Sha = Issued(n: nat) | Text(s: string)

  datatype Stored = Stored(content: string, sha: Sha)

  // A successful PUT: the sha it named, and what it stored.
  datatype Done = Done(path: string, base: Option<Sha>, content: string, sha: Sha)

  datatype Put = Put(path: string, sha: Option<Sha>, content: Option<string>)

  datatype Answer = Created(sha: Sha) | Updated(sha: Sha) | ShaMismatch | ContentRequired

  // `puts` is history: the successful PUTs in order.
  datatype State = State(count: nat, contents: map<string, Stored>, puts: seq<Done>)

  const EMPTY := State(0, map[], [])

  predicate IsGiven(sha: Option<Sha>) { sha.Some? && sha.value != Text("") }

  function Respond(s: State, r: Put): Answer {
    if r.path in s.contents && r.sha != Some(s.contents[r.path].sha) then ShaMismatch
    else if r.path !in s.contents && IsGiven(r.sha) then ShaMismatch
    else if r.content.None? || r.content.value == "" then ContentRequired
    else if r.path in s.contents then Updated(Issued(s.count + 1))
    else Created(Issued(s.count + 1))
  }

  predicate Succeeds(a: Answer) { a.Created? || a.Updated? }

  function After(s: State, r: Put): State {
    if !Succeeds(Respond(s, r)) then s
    else
      var sha := Issued(s.count + 1);
      var content := r.content.value;
      State(s.count + 1, s.contents[r.path := Stored(content, sha)], s.puts + [Done(r.path, r.sha, content, sha)])
  }

  class ContractState {
    var contentCount: nat
    var contents: map<string, Stored>
    ghost var puts: seq<Done>

    constructor ()
      ensures Value() == EMPTY
    {
      contentCount, contents, puts := 0, map[], [];
    }

    ghost function Value(): State
      reads this
    {
      State(contentCount, contents, puts)
    }

    method Get(path: string) returns (found: Option<Stored>)
      ensures found == if path in contents then Some(contents[path]) else None
    {
      if path in contents { return Some(contents[path]); }
      return None;
    }

    method PutContents(r: Put) returns (answer: Answer)
      modifies this
      ensures answer == Respond(old(Value()), r) && Value() == After(old(Value()), r)
    {
      var existing := Get(r.path);
      if existing.Some? && r.sha != Some(existing.value.sha) { return ShaMismatch; }
      if existing.None? && IsGiven(r.sha) { return ShaMismatch; }
      if r.content.None? || r.content.value == "" { return ContentRequired; }
      contentCount := contentCount + 1;
      var sha := Issued(contentCount);
      contents := contents[r.path := Stored(r.content.value, sha)];
      puts := puts + [Done(r.path, r.sha, r.content.value, sha)];
      return if existing.Some? then Updated(sha) else Created(sha);
    }
  }

  // ---------- what a PUT answers ----------

  /** A PUT with some content succeeds if and only if it names the sha that is stored under its path, or,
  where nothing is stored, names none.  It is refused for its content only when that is all that is wrong. */
  lemma PutSucceedsIff(s: State, r: Put)
    ensures var stored := r.path in s.contents;
            var named := if stored then r.sha == Some(s.contents[r.path].sha) else r.sha == None || r.sha == Some(Text(""));
            var filled := r.content.Some? && r.content.value != "";
            && (Succeeds(Respond(s, r)) <==> named && filled)
            && (Respond(s, r).Updated? <==> named && filled && stored)
            && (Respond(s, r).ContentRequired? <==> named && !filled)
            && (Respond(s, r).ShaMismatch? <==> !named)
  {
  }

  /** What was PUT is what the next GET finds, under the sha the PUT was answered with; every other path
  and, after a refusal, every path is as it was. */
  lemma PutThenGet(s: State, r: Put, path: string)
    ensures Succeeds(Respond(s, r)) && path == r.path ==>
              r.content.Some? && Lookup(After(s, r), path) == Some(Stored(r.content.value, Respond(s, r).sha))
    ensures !Succeeds(Respond(s, r)) || path != r.path ==> Lookup(After(s, r), path) == Lookup(s, path)
  {
  }

  // ---------- what every run of requests keeps ----------

  function AfterAll(requests: seq<Put>): State {
    if requests == [] then EMPTY
    else After(AfterAll(requests[..|requests| - 1]), requests[|requests| - 1])
  }

  function Replay(puts: seq<Done>): map<string, Stored> {
    if puts == [] then map[]
    else
      var last := puts[|puts| - 1];
      Replay(puts[..|puts| - 1])[last.path := Stored(last.content, last.sha)]
  }

  /** The last PUT to the path among these. */
  function LastTo(puts: seq<Done>, path: string): Option<Done> {
    if puts == [] then None
    else if puts[|puts| - 1].path == path then Some(puts[|puts| - 1])
    else LastTo(puts[..|puts| - 1], path)
  }

  /** Each PUT named the sha of the PUT to the same path right before it, or none if it was the first. */
  ghost predicate Chained(puts: seq<Done>) {
    forall i :: 0 <= i < |puts| ==>
      match LastTo(puts[..i], puts[i].path)
      case None => !IsGiven(puts[i].base)
      case Some(before) => puts[i].base == Some(before.sha)
  }

  /** PUT number i was the i-th to be given a sha: no sha is ever given twice. */
  ghost predicate Numbered(puts: seq<Done>) {
    forall i :: 0 <= i < |puts| ==> puts[i].sha == Issued(i + 1)
  }

  ghost predicate Inv(s: State) {
    s.count == |s.puts| && Numbered(s.puts) && Chained(s.puts) && s.contents == Replay(s.puts)
  }

  lemma {:induction false} ReplayHasTheLast(puts: seq<Done>, path: string)
    ensures match LastTo(puts, path)
            case None => path !in Replay(puts)
            case Some(d) => path in Replay(puts) && Replay(puts)[path] == Stored(d.content, d.sha) && d in puts && d.path == path
  {
    if puts != [] {
      var init := puts[..|puts| - 1];
      ReplayHasTheLast(init, path);
      assert puts == init + [puts[|puts| - 1]];
    }
  }

  lemma ChainedSnoc(puts: seq<Done>, d: Done)
    requires Chained(puts)
    requires match LastTo(puts, d.path)
             case None => !IsGiven(d.base)
             case Some(before) => d.base == Some(before.sha)
    ensures Chained(puts + [d])
  {
    var more := puts + [d];
    forall i | 0 <= i < |more|
      ensures match LastTo(more[..i], more[i].path)
              case None => !IsGiven(more[i].base)
              case Some(before) => more[i].base == Some(before.sha)
    {
      if i < |puts| { assert more[..i] == puts[..i]; } else { assert more[..i] == puts; }
    }
  }

  lemma ReplaySnoc(puts: seq<Done>, d: Done)
    requires Numbered(puts) && d.sha == Issued(|puts| + 1)
    ensures Replay(puts + [d]) == Replay(puts)[d.path := Stored(d.content, d.sha)] && Numbered(puts + [d])
  {
    assert (puts + [d])[..|puts|] == puts;
  }

  lemma {:induction false} PutKeepsInv(s: State, r: Put)
    requires Inv(s)
    ensures Inv(After(s, r))
  {
    if Succeeds(Respond(s, r)) {
      var d := Done(r.path, r.sha, r.content.value, Issued(s.count + 1));
      hide Chained, Numbered, Replay, LastTo;
      ReplayHasTheLast(s.puts, r.path);
      ChainedSnoc(s.puts, d);
      ReplaySnoc(s.puts, d);
    }
  }

  /** In every run: the stored contents are the successful PUTs replayed in order; every successful PUT
  to an existing path named the sha of the successful PUT to it right before; and no sha is reissued,
  over time or across paths. */
  lemma {:induction false} RunsKeepInv(requests: seq<Put>)
    ensures Inv(AfterAll(requests))
  {
    if requests != [] {
      RunsKeepInv(requests[..|requests| - 1]);
      PutKeepsInv(AfterAll(requests[..|requests| - 1]), requests[|requests| - 1]);
    }
  }

  // ---------- no lost updates ----------

  // A client's read-modify-write: what it saw under the path, and what it makes of it.
  datatype Edit = Edit(path: string, seen: Option<Stored>, change: Option<string> -> string)

  function ContentOf(seen: Option<Stored>): Option<string> {
    match seen
    case None => None
    case Some(stored) => Some(stored.content)
  }

  function RequestOf(e: Edit): Put {
    Put(e.path, if e.seen.Some? then Some(e.seen.value.sha) else None, Some(e.change(ContentOf(e.seen))))
  }

  function Requests(edits: seq<Edit>): (requests: seq<Put>)
    ensures |requests| == |edits|
  {
    if edits == [] then [] else Requests(edits[..|edits| - 1]) + [RequestOf(edits[|edits| - 1])]
  }

  function StateAfter(edits: seq<Edit>): State { AfterAll(Requests(edits)) }

  function Lookup(s: State, path: string): Option<Stored> {
    if path in s.contents then Some(s.contents[path]) else None
  }

  /** Every client saw what a GET returned at some moment before its PUT, however long before. */
  ghost predicate Honest(edits: seq<Edit>) {
    forall k :: 0 <= k < |edits| ==>
      edits[k].seen == None || exists j :: 0 <= j <= k && Lookup(StateAfter(edits[..j]), edits[k].path) == edits[k].seen
  }

  /** The path's content when the successful edits are applied one after the other, each to the result
  of the one before. */
  function OneAfterTheOther(edits: seq<Edit>, path: string): Option<string> {
    if edits == [] then None
    else
      var init, e := edits[..|edits| - 1], edits[|edits| - 1];
      var before := OneAfterTheOther(init, path);
      if e.path == path && Succeeds(Respond(StateAfter(init), RequestOf(e))) then Some(e.change(before)) else before
  }

  lemma StateAfterSnoc(edits: seq<Edit>)
    requires edits != []
    ensures StateAfter(edits) == After(StateAfter(edits[..|edits| - 1]), RequestOf(edits[|edits| - 1]))
  {
    var requests := Requests(edits);
    assert requests[..|requests| - 1] == Requests(edits[..|edits| - 1]);
  }

  lemma {:induction false} PutsGrow(edits: seq<Edit>, j: nat)
    requires j <= |edits|
    ensures StateAfter(edits[..j]).puts <= StateAfter(edits).puts
    decreases |edits|
  {
    if j == |edits| {
      assert edits[..j] == edits;
    } else {
      var init := edits[..|edits| - 1];
      assert init[..j] == edits[..j];
      PutsGrow(init, j);
      StateAfterSnoc(edits);
    }
  }

  /** A sha that is stored under a path still has the content it was first stored with. */
  lemma SameShaSameContent(edits: seq<Edit>, j: nat, path: string)
    requires j <= |edits|
    ensures var past, now := Lookup(StateAfter(edits[..j]), path), Lookup(StateAfter(edits), path);
            past.Some? && now.Some? && past.value.sha == now.value.sha ==> past == now
  {
    var earlier, later := StateAfter(edits[..j]), StateAfter(edits);
    PutsGrow(edits, j);
    RunsKeepInv(Requests(edits[..j]));
    RunsKeepInv(Requests(edits));
    ReplayHasTheLast(earlier.puts, path);
    ReplayHasTheLast(later.puts, path);
    if path in earlier.contents && path in later.contents {
      var d, d' := LastTo(earlier.puts, path).value, LastTo(later.puts, path).value;
      var i :| 0 <= i < |earlier.puts| && earlier.puts[i] == d;
      var i' :| 0 <= i' < |later.puts| && later.puts[i'] == d';
      assert later.puts[i] == d;
    }
  }

  lemma HonestBefore(edits: seq<Edit>)
    requires Honest(edits) && edits != []
    ensures Honest(edits[..|edits| - 1])
  {
    var init := edits[..|edits| - 1];
    forall k | 0 <= k < |init|
      ensures init[k].seen == None
           || exists j :: 0 <= j <= k && Lookup(StateAfter(init[..j]), init[k].path) == init[k].seen
    {
      if edits[k].seen != None {
        var j :| 0 <= j <= k && Lookup(StateAfter(edits[..j]), edits[k].path) == edits[k].seen;
        assert init[..j] == edits[..j];
      }
    }
  }

  /** However many clients read, modify and write concurrently: the content under every path is the
  successful modifications applied one after the other, so none of them is lost. */
  lemma {:induction false} NoUpdateIsLost(edits: seq<Edit>, path: string)
    requires Honest(edits)
    ensures ContentOf(Lookup(StateAfter(edits), path)) == OneAfterTheOther(edits, path)
  {
    if edits != [] {
      var init, e := edits[..|edits| - 1], edits[|edits| - 1];
      HonestBefore(edits);
      NoUpdateIsLost(init, path);
      StateAfterSnoc(edits);
      SuccessSawTheLatest(edits);
    }
  }

  /** An edit succeeds if and only if it had seen what is stored right before it and leaves some content;
  so a client that saw the latest gets through. */
  lemma {:induction false} SuccessSawTheLatest(edits: seq<Edit>)
    requires Honest(edits) && edits != []
    ensures var init, e := edits[..|edits| - 1], edits[|edits| - 1];
            Succeeds(Respond(StateAfter(init), RequestOf(e))) <==>
              e.seen == Lookup(StateAfter(init), e.path) && e.change(ContentOf(e.seen)) != ""
  {
    var n := |edits| - 1;
    var init, e := edits[..n], edits[n];
    PutSucceedsIff(StateAfter(init), RequestOf(e));
    if e.seen != None {
      var j :| 0 <= j <= n && Lookup(StateAfter(edits[..j]), e.path) == e.seen;
      assert init[..j] == edits[..j];
      SameShaSameContent(init, j, e.path);
      ShasAreIssued(init[..j], e.path);
    }
  }

  lemma ShasAreIssued(edits: seq<Edit>, path: string)
    ensures Lookup(StateAfter(edits), path).Some? ==> Lookup(StateAfter(edits), path).value.sha.Issued?
  {
    var s := StateAfter(edits);
    RunsKeepInv(Requests(edits));
    ReplayHasTheLast(s.puts, path);
    if path in s.contents {
      var i :| 0 <= i < |s.puts| && s.puts[i] == LastTo(s.puts, path).value;
    }
  }
}

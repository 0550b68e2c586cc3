/**
 * The diagram list page: the new-diagram name check, the ordering of the loaded
 * list, what a failed load leaves, the list after a delete, and the filter text.
 */
module DiagramList {
  import opened Wrappers
  import opened Text

  /** A saved diagram; the two dates are their millisecond timestamps. */
  datatype Diagram = Diagram(id: string, title: string, content: string, createdAt: int, updatedAt: int)

  /** The body sent to create a diagram. */
  datatype CreateDiagram = CreateDiagram(title: string, content: string)

  // ---------------------------------------------------------------------------
  // Creating a diagram
  // ---------------------------------------------------------------------------

  const MaxTitleLength := 50
  const EmptyNameMessage := "Debe ingresar un nombre para el diagrama"
  const LongNameMessage := "El nombre no puede exceder los 50 caracteres"

  /** The dialog's `inputValidator`: a message for a rejected name, nothing for an accepted one. */
  function InputValidator(value: string): (r: Option<string>)
    ensures r == Some(EmptyNameMessage) <==> value == ""
    ensures r == Some(LongNameMessage) <==> |value| > MaxTitleLength
    ensures r.None? <==> 0 < |value| <= MaxTitleLength
  {
    if value == "" then Some(EmptyNameMessage)
    else if |value| > MaxTitleLength then Some(LongNameMessage)
    else None
  }

  /** The new diagram built from a confirmed name: trimmed title, empty content. */
  function NewDiagram(value: string): (r: CreateDiagram)
    ensures r.content == ""
    ensures |r.title| <= |value|
    ensures r.title == [] || (!IsJsWhitespace(r.title[0]) && !IsJsWhitespace(r.title[|r.title| - 1]))
    ensures exists i :: TrimmedSlice(value, i, r.title)
  {
    CreateDiagram(Trim(value), "")
  }

  /** A text made of white space only, the empty text included. */
  predicate AllWhitespace(s: string) {
    forall k :: 0 <= k < |s| ==> IsJsWhitespace(s[k])
  }

  /** Trimming leaves nothing exactly when the text is all white space. */
  lemma TrimEmptyIffBlank(s: string)
    ensures Trim(s) == [] <==> AllWhitespace(s)
  {
    var i :| TrimmedSlice(s, i, Trim(s));
    if Trim(s) != [] {
      assert s[i] == Trim(s)[0];
    }
  }

  /**
   * The dialog's confirm step. The dialog library trims a text input before it
   * calls `inputValidator` (its `inputAutoTrim` option, on by default and not
   * turned off here), and a confirmed result carries that trimmed text.
   */
  function ConfirmName(raw: string): (r: Result<string, string>)
    ensures r == Failure(EmptyNameMessage) <==> AllWhitespace(raw)
    ensures r == Failure(LongNameMessage) <==> |Trim(raw)| > MaxTitleLength
    ensures r.Success? <==> !AllWhitespace(raw) && |Trim(raw)| <= MaxTitleLength
    ensures r.Success? ==> r.value == Trim(raw)
  {
    TrimEmptyIffBlank(raw);
    match InputValidator(Trim(raw))
    case Some(message) => Failure(message)
    case None => Success(Trim(raw))
  }

  /** Surrounding white space never changes what the dialog does with a name. */
  lemma ConfirmIgnoresPadding(raw: string)
    ensures ConfirmName(Trim(raw)) == ConfirmName(raw)
  {
    TrimOfTrimmed(Trim(raw));
  }

  /** A confirmed name gives a non-empty title of at most 50 characters, the name itself. */
  lemma AcceptedTitleFits(raw: string)
    requires ConfirmName(raw).Success?
    ensures NewDiagram(ConfirmName(raw).value).title == Trim(raw)
    ensures 0 < |NewDiagram(ConfirmName(raw).value).title| <= MaxTitleLength
  {
    TrimOfTrimmed(Trim(raw));
    TrimEmptyIffBlank(raw);
  }

  /** A name of blanks is refused with the empty-name message, and no diagram is created. */
  lemma BlankNameRejected()
    ensures ConfirmName("   ") == Failure(EmptyNameMessage)
  {
    assert AllWhitespace("   ");
  }

  /**
   * The length limit applies to the trimmed name: a 50-character name with one
   * leading blank is confirmed, although the raw text is over the limit.
   */
  lemma PaddedNameAccepted(name: string)
    requires |name| == MaxTitleLength
    requires !IsJsWhitespace(name[0]) && !IsJsWhitespace(name[|name| - 1])
    ensures InputValidator(" " + name) == Some(LongNameMessage)
    ensures ConfirmName(" " + name) == Success(name)
  {
    var raw := " " + name;
    var t := TrimStart(raw);
    assert raw[1..] == name;
    assert TrimStart(raw) == TrimStart(name);
    TrimOfTrimmed(name);
    assert !AllWhitespace(raw) by {
      assert !IsJsWhitespace(raw[1]);
    }
    assert Trim(raw) == name by {
      assert TrimEnd(TrimStart(name)) == name;
    }
  }

  // ---------------------------------------------------------------------------
  // Loading the list
  // ---------------------------------------------------------------------------

  /** Most recently updated first. */
  predicate SortedByUpdate(ds: seq<Diagram>) {
    forall i, j :: 0 <= i < j < |ds| ==> ds[i].updatedAt >= ds[j].updatedAt
  }

  /**
   * One step of the stable sort: `d`, which came first in the input, goes before
   * every entry updated at the same time or earlier.
   */
  function Insert(d: Diagram, ds: seq<Diagram>): (r: seq<Diagram>)
    requires SortedByUpdate(ds)
    ensures SortedByUpdate(r)
    ensures multiset(r) == multiset(ds) + multiset{d}
    ensures |r| == |ds| + 1
    ensures r[0] == d || (ds != [] && r[0] == ds[0])
  {
    if ds == [] || ds[0].updatedAt <= d.updatedAt then
      SortedCons(d, ds);
      [d] + ds
    else
      var rest := Insert(d, ds[1..]);
      assert ds == [ds[0]] + ds[1..];
      SortedCons(ds[0], rest);
      [ds[0]] + rest
  }

  /** A list sorted newest first stays sorted when an entry no older than its head goes in front. */
  lemma SortedCons(x: Diagram, xs: seq<Diagram>)
    requires SortedByUpdate(xs)
    requires xs == [] || x.updatedAt >= xs[0].updatedAt
    ensures SortedByUpdate([x] + xs)
  {
  }

  /**
   * `Array.prototype.sort` with the comparator `b.updatedAt - a.updatedAt`: a
   * stable sort, newest first.
   */
  function SortByUpdate(ds: seq<Diagram>): (r: seq<Diagram>)
    ensures SortedByUpdate(r)
    ensures multiset(r) == multiset(ds)
  {
    if ds == [] then []
    else
      assert ds == [ds[0]] + ds[1..];
      Insert(ds[0], SortByUpdate(ds[1..]))
  }

  /** Diagrams updated at different times keep no trace of their input order. */
  lemma SortedOrderIsForced(ds: seq<Diagram>, i: nat, j: nat)
    requires i < |SortByUpdate(ds)| && j < |SortByUpdate(ds)|
    requires SortByUpdate(ds)[i].updatedAt > SortByUpdate(ds)[j].updatedAt
    ensures i < j
  {
  }

  /** Entries with the same `updatedAt` keep their input order. */
  predicate StableFor(input: seq<Diagram>, output: seq<Diagram>, t: int) {
    Only(output, t) == Only(input, t)
  }

  function Only(ds: seq<Diagram>, t: int): (r: seq<Diagram>)
    ensures forall k :: 0 <= k < |r| ==> r[k].updatedAt == t && r[k] in ds
  {
    if ds == [] then []
    else (if ds[0].updatedAt == t then [ds[0]] else []) + Only(ds[1..], t)
  }

  lemma {:induction false} InsertStable(d: Diagram, ds: seq<Diagram>, t: int)
    requires SortedByUpdate(ds)
    ensures Only(Insert(d, ds), t) == Only([d], t) + Only(ds, t)
  {
    if ds == [] || ds[0].updatedAt <= d.updatedAt {
      OnlyConcat([d], ds, t);
    } else {
      assert ds == [ds[0]] + ds[1..];
      InsertStable(d, ds[1..], t);
      OnlyConcat([ds[0]], Insert(d, ds[1..]), t);
      if d.updatedAt == t {
        // ds[0] is newer than d, so it is not one of the entries at time t
        assert ds[0].updatedAt != t;
      }
    }
  }

  lemma {:induction false} OnlyConcat(a: seq<Diagram>, b: seq<Diagram>, t: int)
    ensures Only(a + b, t) == Only(a, t) + Only(b, t)
  {
    if a == [] {
      assert a + b == b;
    } else {
      assert (a + b)[1..] == a[1..] + b;
      OnlyConcat(a[1..], b, t);
    }
  }

  /** The sort is stable: entries updated at the same time come out in their input order. */
  lemma {:induction false} SortIsStable(ds: seq<Diagram>, t: int)
    ensures StableFor(ds, SortByUpdate(ds), t)
  {
    if ds != [] {
      SortIsStable(ds[1..], t);
      InsertStable(ds[0], SortByUpdate(ds[1..]), t);
      OnlyConcat([ds[0]], ds[1..], t);
      assert ds == [ds[0]] + ds[1..];
    }
  }

  /** Stability for every timestamp at once. */
  lemma SortIsStableAll(ds: seq<Diagram>)
    ensures forall t :: StableFor(ds, SortByUpdate(ds), t)
  {
    forall t
      ensures StableFor(ds, SortByUpdate(ds), t)
    {
      SortIsStable(ds, t);
    }
  }

  const LoadErrorMessage := "No se pudieron cargar los diagramas. Por favor, intente nuevamente."

  /** What the page shows once a load has finished. */
  datatype ListState = ListState(diagrams: seq<Diagram>, error: Option<string>, isLoading: bool)

  /**
   * `loadDiagrams`: on success the response sorted newest first and no error;
   * on failure an empty list and the load error. Loading has finished either way.
   */
  function LoadDiagrams<E>(response: Result<seq<Diagram>, E>): (r: ListState)
    ensures !r.isLoading
    ensures response.Success? ==>
      && r.error.None? && SortedByUpdate(r.diagrams)
      && multiset(r.diagrams) == multiset(response.value)
    ensures response.Success? ==> forall t :: StableFor(response.value, r.diagrams, t)
    ensures response.Failure? ==> r.error == Some(LoadErrorMessage) && r.diagrams == []
  {
    match response
    case Success(ds) =>
      SortIsStableAll(ds);
      ListState(SortByUpdate(ds), None, false)
    case Failure(_) => ListState(SortByUpdate([]), Some(LoadErrorMessage), false)
  }

  // ---------------------------------------------------------------------------
  // Deleting a diagram
  // ---------------------------------------------------------------------------

  /** `data.filter(d => d.id !== diagramId)`. */
  function WithoutId(ds: seq<Diagram>, id: string): (r: seq<Diagram>)
    ensures |r| <= |ds|
    ensures forall k :: 0 <= k < |r| ==> r[k].id != id && r[k] in ds
    ensures forall d :: d in ds && d.id != id ==> d in r
  {
    if ds == [] then []
    else (if ds[0].id != id then [ds[0]] else []) + WithoutId(ds[1..], id)
  }

  lemma {:induction false} WithoutIdConcat(a: seq<Diagram>, b: seq<Diagram>, id: string)
    ensures WithoutId(a + b, id) == WithoutId(a, id) + WithoutId(b, id)
  {
    if a == [] {
      assert a + b == b;
    } else {
      assert (a + b)[1..] == a[1..] + b;
      WithoutIdConcat(a[1..], b, id);
    }
  }

  /** A list without that id is left as it is, and deleting twice is deleting once. */
  lemma {:induction false} WithoutIdAbsent(ds: seq<Diagram>, id: string)
    requires forall k :: 0 <= k < |ds| ==> ds[k].id != id
    ensures WithoutId(ds, id) == ds
  {
    if ds != [] {
      WithoutIdAbsent(ds[1..], id);
    }
  }

  /** Deleting keeps the list sorted newest first. */
  lemma {:induction false} WithoutIdKeepsOrder(ds: seq<Diagram>, id: string)
    requires SortedByUpdate(ds)
    ensures SortedByUpdate(WithoutId(ds, id))
  {
    if ds != [] {
      WithoutIdKeepsOrder(ds[1..], id);
    }
  }

  /** The notifications a delete shows. */
  datatype Notice = DeleteFailed | DeleteSucceeded

  /**
   * What the service's delete observable does: emit the server's answer, fail,
   * or, without a stored token, complete at once without emitting anything.
   */
  datatype DeleteReply = Deleted | RequestFailed | NoToken

  /**
   * `deleteDiagram`: a failure is caught and turned into an empty reply, which
   * reaches the same handler, so the entry leaves the list and the success
   * notice shows even when the server refused the delete. An observable that
   * completes without a value never reaches the handler.
   */
  function DeleteDiagram(ds: seq<Diagram>, id: string, reply: DeleteReply): (r: (seq<Diagram>, seq<Notice>))
    ensures reply.NoToken? ==> r == (ds, [])
    ensures !reply.NoToken? ==> r.0 == WithoutId(ds, id)
    ensures reply.RequestFailed? ==> r.1 == [DeleteFailed, DeleteSucceeded]
    ensures reply.Deleted? ==> r.1 == [DeleteSucceeded]
  {
    match reply
    case NoToken => (ds, [])
    case RequestFailed => (WithoutId(ds, id), [DeleteFailed] + [DeleteSucceeded])
    case Deleted => (WithoutId(ds, id), [DeleteSucceeded])
  }

  /**
   * The list after a delete does not depend on whether the request succeeded,
   * and no entry with that id is left; only a missing token keeps the list.
   */
  lemma DeleteIgnoresFailure(ds: seq<Diagram>, id: string)
    ensures DeleteDiagram(ds, id, RequestFailed).0 == DeleteDiagram(ds, id, Deleted).0
    ensures forall k :: 0 <= k < |DeleteDiagram(ds, id, RequestFailed).0| ==> DeleteDiagram(ds, id, RequestFailed).0[k].id != id
    ensures DeleteDiagram(ds, id, NoToken).0 == ds
  {
  }

  // ---------------------------------------------------------------------------
  // Filtering
  // ---------------------------------------------------------------------------

  /** `applyFilter`: the typed text, trimmed and lower-cased. */
  function ApplyFilter(value: string): (r: string)
    ensures NoAsciiUpper(r)
    ensures r == [] || (!IsJsWhitespace(r[0]) && !IsJsWhitespace(r[|r| - 1]))
    ensures |r| <= |value|
    ensures |r| == |Trim(value)| && forall k :: 0 <= k < |r| ==> r[k] == LowerChar(Trim(value)[k])
  {
    var t := Trim(value);
    LowerHasNoUpper(t);
    LowerKeepsWhitespace(t);
    Lower(t)
  }

  lemma LowerKeepsWhitespace(t: string)
    ensures forall i :: 0 <= i < |t| ==> (IsJsWhitespace(Lower(t)[i]) <==> IsJsWhitespace(t[i]))
  {
  }

  lemma TrimOfTrimmed(t: string)
    requires t == [] || (!IsJsWhitespace(t[0]) && !IsJsWhitespace(t[|t| - 1]))
    ensures Trim(t) == t
  {
  }

  /** Typing the filter again as it was normalized changes nothing. */
  lemma ApplyFilterIdempotent(value: string)
    ensures ApplyFilter(ApplyFilter(value)) == ApplyFilter(value)
  {
    var r := ApplyFilter(value);
    TrimOfTrimmed(r);
    LowerIdempotent(r);
  }
}

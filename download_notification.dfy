/**
 * The desktop download notification panel: three keyed maps (downloads in
 * progress, completed downloads, errors), the events that update them, and
 * the ordered list of cards the panel shows.
 */
module DownloadNotification {
  import opened Wrappers
  import opened JsMaps

  /** A `download-progress` event from the desktop shell. */
  datatype DownloadProgress = DownloadProgress(id: string, percent: int, filename: string)

  /** A `download-complete` event from the desktop shell. */
  datatype DownloadComplete = DownloadComplete(id: string, filename: string, filePath: string)

  /** One card of the panel: the map it comes from, its key and its data. */
  datatype Notification =
    | ProgressCard(id: string, progress: DownloadProgress)
    | CompleteCard(id: string, complete: DownloadComplete)
    | ErrorCard(id: string, message: string)

  /** One card per entry of a map, in order, each carrying the entry's key and value. */
  function ProgressCards(m: JsMap<DownloadProgress>): (r: seq<Notification>)
    ensures |r| == m.Size()
    ensures forall i :: 0 <= i < |r| ==> r[i] == ProgressCard(m.entries[i].0, m.entries[i].1)
  {
    seq(|m.entries|, i requires 0 <= i < |m.entries| => ProgressCard(m.entries[i].0, m.entries[i].1))
  }

  function CompleteCards(m: JsMap<DownloadComplete>): (r: seq<Notification>)
    ensures |r| == m.Size()
    ensures forall i :: 0 <= i < |r| ==> r[i] == CompleteCard(m.entries[i].0, m.entries[i].1)
  {
    seq(|m.entries|, i requires 0 <= i < |m.entries| => CompleteCard(m.entries[i].0, m.entries[i].1))
  }

  function ErrorCards(m: JsMap<string>): (r: seq<Notification>)
    ensures |r| == m.Size()
    ensures forall i :: 0 <= i < |r| ==> r[i] == ErrorCard(m.entries[i].0, m.entries[i].1)
  {
    seq(|m.entries|, i requires 0 <= i < |m.entries| => ErrorCard(m.entries[i].0, m.entries[i].1))
  }

  /**
   * The list of cards for three maps: every in-progress entry, then every
   * completed entry, then every error.
   */
  function Cards(d: JsMap<DownloadProgress>, c: JsMap<DownloadComplete>, e: JsMap<string>): (r: seq<Notification>)
    ensures |r| == d.Size() + c.Size() + e.Size()
    ensures forall k :: 0 <= k < |r| ==>
      (r[k].ProgressCard? <==> k < d.Size()) &&
      (r[k].ErrorCard? <==> d.Size() + c.Size() <= k)
  {
    var p, q, x := ProgressCards(d), CompleteCards(c), ErrorCards(e);
    forall k | 0 <= k < |p| + |q| + |x|
      ensures ((p + q + x)[k].ProgressCard? <==> k < |p|) && ((p + q + x)[k].ErrorCard? <==> |p| + |q| <= k)
    {
      if k < |p| {
        assert (p + q + x)[k] == p[k];
      } else if k < |p| + |q| {
        assert (p + q + x)[k] == q[k - |p|];
      } else {
        assert (p + q + x)[k] == x[k - |p| - |q|];
      }
    }
    p + q + x
  }

  /** The i-th progress card is made from the i-th in-progress entry. */
  lemma ProgressCardAt(d: JsMap<DownloadProgress>, c: JsMap<DownloadComplete>, e: JsMap<string>, i: nat)
    requires i < d.Size()
    ensures Cards(d, c, e)[i] == ProgressCard(d.entries[i].0, d.entries[i].1)
  {
    var p, q, x := ProgressCards(d), CompleteCards(c), ErrorCards(e);
    assert Cards(d, c, e) == p + q + x;
    assert (p + q + x)[i] == p[i];
  }

  /** The i-th completion card follows the progress cards and is made from the i-th completed entry. */
  lemma CompleteCardAt(d: JsMap<DownloadProgress>, c: JsMap<DownloadComplete>, e: JsMap<string>, i: nat)
    requires i < c.Size()
    ensures Cards(d, c, e)[d.Size() + i] == CompleteCard(c.entries[i].0, c.entries[i].1)
  {
    var p, q, x := ProgressCards(d), CompleteCards(c), ErrorCards(e);
    assert Cards(d, c, e) == p + q + x;
    assert (p + q + x)[|p| + i] == q[i];
  }

  /** The i-th error card comes last and is made from the i-th error entry. */
  lemma ErrorCardAt(d: JsMap<DownloadProgress>, c: JsMap<DownloadComplete>, e: JsMap<string>, i: nat)
    requires i < e.Size()
    ensures Cards(d, c, e)[d.Size() + c.Size() + i] == ErrorCard(e.entries[i].0, e.entries[i].1)
  {
    var p, q, x := ProgressCards(d), CompleteCards(c), ErrorCards(e);
    assert Cards(d, c, e) == p + q + x;
    assert (p + q + x)[|p| + |q| + i] == x[i];
  }

  /** Each group of cards follows its map's insertion order and carries the entry's data. */
  lemma CardsInOrder(d: JsMap<DownloadProgress>, c: JsMap<DownloadComplete>, e: JsMap<string>)
    requires d.Valid() && c.Valid() && e.Valid()
    ensures var r := Cards(d, c, e);
      && (forall i :: 0 <= i < d.Size() ==>
            r[i].id == d.Keys()[i] && Some(r[i].progress) == d.Get(r[i].id))
      && (forall i :: 0 <= i < c.Size() ==>
            var j := d.Size() + i;
            r[j].id == c.Keys()[i] && Some(r[j].complete) == c.Get(r[j].id))
      && (forall i :: 0 <= i < e.Size() ==>
            var j := d.Size() + c.Size() + i;
            r[j].id == e.Keys()[i] && Some(r[j].message) == e.Get(r[j].id))
  {
    var r := Cards(d, c, e);
    forall i | 0 <= i < d.Size()
      ensures r[i].id == d.Keys()[i] && Some(r[i].progress) == d.Get(r[i].id)
    {
      ProgressCardAt(d, c, e, i);
      EntryAt(d, i);
    }
    forall i | 0 <= i < c.Size()
      ensures r[d.Size() + i].id == c.Keys()[i] && Some(r[d.Size() + i].complete) == c.Get(r[d.Size() + i].id)
    {
      CompleteCardAt(d, c, e, i);
      EntryAt(c, i);
    }
    forall i | 0 <= i < e.Size()
      ensures var j := d.Size() + c.Size() + i; r[j].id == e.Keys()[i] && Some(r[j].message) == e.Get(r[j].id)
    {
      ErrorCardAt(d, c, e, i);
      EntryAt(e, i);
    }
  }

  /** A card of the list belongs to an entry of the map of its kind and carries that entry's data. */
  lemma CardOfEntry(d: JsMap<DownloadProgress>, c: JsMap<DownloadComplete>, e: JsMap<string>, n: Notification)
    requires d.Valid() && c.Valid() && e.Valid()
    requires n in Cards(d, c, e)
    ensures n.ProgressCard? ==> d.Has(n.id) && d.Get(n.id) == Some(n.progress)
    ensures n.CompleteCard? ==> c.Has(n.id) && c.Get(n.id) == Some(n.complete)
    ensures n.ErrorCard? ==> e.Has(n.id) && e.Get(n.id) == Some(n.message)
  {
    match n
    case ProgressCard(_, _) => ProgressCardOfEntry(d, c, e, n);
    case CompleteCard(_, _) => CompleteCardOfEntry(d, c, e, n);
    case ErrorCard(_, _) => ErrorCardOfEntry(d, c, e, n);
  }

  lemma ProgressCardOfEntry(d: JsMap<DownloadProgress>, c: JsMap<DownloadComplete>, e: JsMap<string>, n: Notification)
    requires d.Valid()
    requires n in Cards(d, c, e) && n.ProgressCard?
    ensures d.Has(n.id) && d.Get(n.id) == Some(n.progress)
  {
    var r := Cards(d, c, e);
    var k :| 0 <= k < |r| && r[k] == n;
    assert k < d.Size();
    ProgressCardAt(d, c, e, k);
    assert n == ProgressCard(d.entries[k].0, d.entries[k].1);
    EntryAt(d, k);
  }

  lemma CompleteCardOfEntry(d: JsMap<DownloadProgress>, c: JsMap<DownloadComplete>, e: JsMap<string>, n: Notification)
    requires c.Valid()
    requires n in Cards(d, c, e) && n.CompleteCard?
    ensures c.Has(n.id) && c.Get(n.id) == Some(n.complete)
  {
    var r := Cards(d, c, e);
    var k :| 0 <= k < |r| && r[k] == n;
    assert d.Size() <= k < d.Size() + c.Size();
    var i := k - d.Size();
    CompleteCardAt(d, c, e, i);
    assert n == CompleteCard(c.entries[i].0, c.entries[i].1);
    EntryAt(c, i);
  }

  lemma ErrorCardOfEntry(d: JsMap<DownloadProgress>, c: JsMap<DownloadComplete>, e: JsMap<string>, n: Notification)
    requires e.Valid()
    requires n in Cards(d, c, e) && n.ErrorCard?
    ensures e.Has(n.id) && e.Get(n.id) == Some(n.message)
  {
    var r := Cards(d, c, e);
    var k :| 0 <= k < |r| && r[k] == n;
    assert d.Size() + c.Size() <= k;
    var i := k - d.Size() - c.Size();
    ErrorCardAt(d, c, e, i);
    assert n == ErrorCard(e.entries[i].0, e.entries[i].1);
    EntryAt(e, i);
  }

  class DownloadNotifications {
    var downloads: JsMap<DownloadProgress>
    var completed: JsMap<DownloadComplete>
    var errors: JsMap<string>

    ghost predicate Valid()
      reads this
    {
      downloads.Valid() && completed.Valid() && errors.Valid()
    }

    /** The three maps start empty. */
    constructor ()
      ensures Valid()
      ensures downloads.Size() == 0 && completed.Size() == 0 && errors.Size() == 0
      ensures AllNotifications() == [] && Rendered().None?
    {
      downloads := Empty();
      completed := Empty();
      errors := Empty();
    }

    /** A progress event inserts or overwrites the entry for its id. */
    method OnDownloadProgress(data: DownloadProgress)
      requires Valid()
      modifies this
      ensures Valid()
      ensures downloads == old(downloads).Set(data.id, data)
      ensures downloads.Contents() == old(downloads.Contents())[data.id := data]
      ensures completed == old(completed) && errors == old(errors)
    {
      SetSpec(downloads, data.id, data);
      downloads := downloads.Set(data.id, data);
    }

    /** A completion event moves the id from the in-progress map to the completed map. */
    method OnDownloadComplete(data: DownloadComplete)
      requires Valid()
      modifies this
      ensures Valid()
      ensures downloads == old(downloads).Delete(data.id)
      ensures downloads.Contents() == old(downloads.Contents()) - {data.id}
      ensures completed == old(completed).Set(data.id, data)
      ensures completed.Contents() == old(completed.Contents())[data.id := data]
      ensures errors == old(errors)
    {
      DeleteSpec(downloads, data.id);
      SetSpec(completed, data.id, data);
      downloads, completed := downloads.Delete(data.id), completed.Set(data.id, data);
    }

    /** The timer armed by a completion event: the id leaves the completed map only. */
    method Expire(id: string)
      requires Valid()
      modifies this
      ensures Valid()
      ensures completed == old(completed).Delete(id)
      ensures completed.Contents() == old(completed.Contents()) - {id}
      ensures downloads == old(downloads) && errors == old(errors)
    {
      DeleteSpec(completed, id);
      completed := completed.Delete(id);
    }

    /** The map of `n`'s kind holds `n`'s id. */
    predicate Shows(n: Notification)
      reads this
    {
      match n
      case ProgressCard(id, _) => downloads.Has(id)
      case CompleteCard(id, _) => completed.Has(id)
      case ErrorCard(id, _) => errors.Has(id)
    }

    /** The close button of a card: its id leaves the map of its kind, and only that one. */
    method Dismiss(n: Notification)
      requires Valid()
      modifies this
      ensures Valid()
      ensures n.ProgressCard? ==> downloads == old(downloads).Delete(n.id)
      ensures !n.ProgressCard? ==> downloads == old(downloads)
      ensures n.CompleteCard? ==> completed == old(completed).Delete(n.id)
      ensures !n.CompleteCard? ==> completed == old(completed)
      ensures n.ErrorCard? ==> errors == old(errors).Delete(n.id)
      ensures !n.ErrorCard? ==> errors == old(errors)
      ensures !Shows(n)
      ensures |AllNotifications()| == |old(AllNotifications())| - (if old(Shows(n)) then 1 else 0)
    {
      match n
      case ProgressCard(id, _) =>
        DeleteSpec(downloads, id);
        downloads := downloads.Delete(id);
      case CompleteCard(id, _) =>
        DeleteSpec(completed, id);
        completed := completed.Delete(id);
      case ErrorCard(id, _) =>
        DeleteSpec(errors, id);
        errors := errors.Delete(id);
    }

    /**
     * `allNotifications`: the cards of the three maps, every in-progress
     * entry, then every completed entry, then every error (`Cards`, whose
     * order `CardsInOrder` states).
     */
    function AllNotifications(): (r: seq<Notification>)
      requires Valid()
      reads this
      ensures |r| == downloads.Size() + completed.Size() + errors.Size()
      ensures forall i :: 0 <= i < |r| ==>
        (r[i].ProgressCard? <==> i < downloads.Size()) &&
        (r[i].ErrorCard? <==> downloads.Size() + completed.Size() <= i)
    {
      Cards(downloads, completed, errors)
    }

    /** The panel: nothing at all when there is no card, otherwise the cards. */
    function Rendered(): (r: Option<seq<Notification>>)
      requires Valid()
      reads this
      ensures r.None? <==> downloads.Size() == 0 && completed.Size() == 0 && errors.Size() == 0
      ensures r.Some? ==> r.value == AllNotifications()
    {
      var cards := AllNotifications();
      if |cards| == 0 then None else Some(cards)
    }

    /** Every card of the list is shown by the map of its kind, which holds the card's data under its id. */
    lemma CardIsShown(n: Notification)
      requires Valid()
      requires n in AllNotifications()
      ensures Shows(n)
      ensures n.ProgressCard? ==> downloads.Get(n.id) == Some(n.progress)
      ensures n.CompleteCard? ==> completed.Get(n.id) == Some(n.complete)
      ensures n.ErrorCard? ==> errors.Get(n.id) == Some(n.message)
    {
      CardOfEntry(downloads, completed, errors, n);
    }
  }
}

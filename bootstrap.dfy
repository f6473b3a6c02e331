/**
 * The server start-up: the list of origins allowed by CORS, built from a
 * fixed development origin and the `APP_URL` and `CORS_ORIGINS` environment
 * variables, and the port the server listens on.
 */
module Bootstrap {
  import opened Wrappers
  import opened Strings

  /** The web client's development server, always allowed. */
  const DevOrigin: string := "http://localhost:5173"

  const DefaultPortNumber: nat := 3000

  /** `xs.filter(Boolean)` on a list of optional strings: drop `undefined` and `""`. */
  function FilterTruthy(xs: seq<Option<string>>): (r: seq<string>)
    ensures |r| <= |xs|
    ensures forall i :: 0 <= i < |r| ==> r[i] != ""
    ensures forall s :: s in r <==> Some(s) in xs && s != ""
  {
    if xs == [] then []
    else if Truthy(xs[0]) then [xs[0].value] + FilterTruthy(xs[1..])
    else FilterTruthy(xs[1..])
  }

  lemma {:induction false} FilterTruthyAppend(xs: seq<Option<string>>, ys: seq<Option<string>>)
    ensures FilterTruthy(xs + ys) == FilterTruthy(xs) + FilterTruthy(ys)
  {
    if xs == [] {
      assert xs + ys == ys;
    } else {
      assert (xs + ys)[1..] == xs[1..] + ys;
      FilterTruthyAppend(xs[1..], ys);
    }
  }

  /** `CORS_ORIGINS?.split(',').map(o => o.trim()) || []`, each piece as a present value. */
  function TrimmedPieces(corsOrigins: Option<string>): (r: seq<Option<string>>)
    ensures corsOrigins.None? ==> r == []
    ensures corsOrigins.Some? ==> |r| == Count(',', corsOrigins.value) + 1
    ensures forall i :: 0 <= i < |r| ==> r[i].Some? && Trimmed(r[i].value) && ',' !in r[i].value
    ensures corsOrigins.Some? ==>
      && |r| == |Split(corsOrigins.value, ',')|
      && forall i :: 0 <= i < |r| ==> r[i] == Some(Trim(Split(corsOrigins.value, ',')[i]))
  {
    match corsOrigins
    case None => []
    case Some(s) =>
      var pieces := Split(s, ',');
      forall i | 0 <= i < |pieces| ensures ',' !in Trim(pieces[i]) {
        TrimInside(pieces[i], ',');
      }
      var r := seq(|pieces|, i requires 0 <= i < |pieces| => Some(Trim(pieces[i])));
      assert forall i :: 0 <= i < |r| ==> r[i] == Some(Trim(pieces[i]));
      r
  }

  /** Trimming only removes characters, so a character absent from `s` is absent from `trim(s)`. */
  lemma TrimInside(s: string, c: char)
    requires c !in s
    ensures c !in Trim(s)
  {
  }

  /**
   * The origins taken from `CORS_ORIGINS`: its comma-separated pieces,
   * trimmed, without the ones that trim to nothing; duplicates stay.
   */
  function ExtraOrigins(corsOrigins: Option<string>): (r: seq<string>)
    ensures corsOrigins.None? ==> r == []
    ensures corsOrigins.Some? ==> |r| <= Count(',', corsOrigins.value) + 1
    ensures forall i :: 0 <= i < |r| ==> r[i] != "" && Trimmed(r[i]) && ',' !in r[i]
    ensures forall x :: x in r <==> x != "" && Some(x) in TrimmedPieces(corsOrigins)
  {
    var pieces := TrimmedPieces(corsOrigins);
    var r := FilterTruthy(pieces);
    forall i | 0 <= i < |r| ensures Trimmed(r[i]) && ',' !in r[i] {
      assert Some(r[i]) in pieces;
    }
    r
  }

  /** When no piece of `CORS_ORIGINS` is blank, every piece is kept, trimmed, in its order. */
  lemma {:induction false} ExtraOriginsKeepOrder(s: string)
    requires forall i :: 0 <= i < |Split(s, ',')| ==> Trim(Split(s, ',')[i]) != ""
    ensures ExtraOrigins(Some(s)) == seq(|Split(s, ',')|, i requires 0 <= i < |Split(s, ',')| => Trim(Split(s, ',')[i]))
  {
    var pieces := TrimmedPieces(Some(s));
    AllTruthyKept(pieces);
  }

  lemma {:induction false} AllTruthyKept(xs: seq<Option<string>>)
    requires forall i :: 0 <= i < |xs| ==> Truthy(xs[i])
    ensures FilterTruthy(xs) == seq(|xs|, i requires 0 <= i < |xs| => xs[i].GetOr(""))
  {
    if xs != [] {
      AllTruthyKept(xs[1..]);
    }
  }

  /**
   * The `origin` option, as the start-up code writes it (a filtered array
   * literal): the development origin first, `APP_URL` second when it is set
   * and not empty, then the origins from `CORS_ORIGINS`.
   */
  function CorsOrigins(appUrl: Option<string>, corsOrigins: Option<string>): (r: seq<string>)
    ensures r == [DevOrigin] + (if Truthy(appUrl) then [appUrl.value] else []) + ExtraOrigins(corsOrigins)
    ensures forall i :: 0 <= i < |r| ==> r[i] != ""
  {
    FilterTruthyAppend([Some(DevOrigin), appUrl], TrimmedPieces(corsOrigins));
    var head := [Some(DevOrigin), appUrl];
    assert FilterTruthy(head) == [DevOrigin] + FilterTruthy([appUrl]) by {
      assert head[1..] == [appUrl];
    }
    assert FilterTruthy([appUrl]) == if Truthy(appUrl) then [appUrl.value] else [] by {
      assert [appUrl][1..] == [];
    }
    FilterTruthy(head + TrimmedPieces(corsOrigins))
  }

  /** What `app.listen` receives: the `PORT` variable when set and not empty, else the number 3000. */
  datatype ListenTarget = EnvPort(value: string) | DefaultPort(number: nat)

  function ListenPort(port: Option<string>): (r: ListenTarget)
    ensures r.EnvPort? <==> Truthy(port)
    ensures r.EnvPort? ==> r.value == port.value
    ensures r.DefaultPort? ==> r.number == DefaultPortNumber
  {
    if Truthy(port) then EnvPort(port.value) else DefaultPort(DefaultPortNumber)
  }
}

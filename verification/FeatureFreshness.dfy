/** Online features from retrieval to assembly: which of them reach the model, and how old
    they may be. Times are in seconds.
 */
module FeatureFreshness {

  datatype Option<T> = None | Some(value: T)

  datatype Column = Column(name: string)

  /** One cell of a response, by what the program can tell about it. */
  datatype Cell =
    | Null
    | Truth(b: bool)
    | Whole(n: int)
    | Fraction(x: real)
    | NonFinite
    | Moment(t: real)
    | NaiveMoment
    | Other

  datatype Key = Feature(column: Column) | Stamp(column: Column) | Entity | EntityStamp | Foreign(name: string)

  datatype Schema = Schema(columns: seq<Column>, nullable: set<Column>, merchant: set<Column>, integers: set<Column>)

  datatype Request = Request(time: real, hasMerchant: bool)

  /** A view asks for some columns by one entity; the store answers with a dictionary or not. */
  datatype View = View(features: seq<Column>, isMerchant: bool, hasEntity: bool)

  datatype Response = Dictionary(cells: map<Key, seq<Cell>>) | NotADictionary | TimedOut | Broken

  datatype Fault =
    | MissingFeatures(columns: seq<Column>)
    | BadTimestamp
    | StaleFeatures(columns: seq<Column>)
    | ContractBroken
    | BackendFailed
    | BackendTimedOut

  datatype Result<T> = Ok(value: T) | Err(fault: Fault)

  datatype Timestamp = Aware(t: real) | Naive

  datatype FeatureSet = FeatureSet(values: map<Column, Cell>, timestamps: map<Column, Option<Timestamp>>)

  datatype Vector = Vector(values: map<Column, Cell>, timestamp: real)

  // ---------------------------------------------------------------------------
  // Retrieval
  // ---------------------------------------------------------------------------

  predicate Allowed(view: View, key: Key) {
    match key
    case Feature(c) => c in view.features
    case Stamp(c) => c in view.features
    case Entity => true
    case EntityStamp => true
    case Foreign(_) => false
  }

  /** The merchant view has the merchant columns, the others have none of them, and it has an
      entity exactly if the request names a merchant. */
  ghost predicate ViewsFit(schema: Schema, request: Request, views: seq<View>) {
    && (forall c :: c in schema.merchant ==> exists i :: 0 <= i < |views| && c in views[i].features)
    && forall i, c :: 0 <= i < |views| && c in views[i].features && c in schema.merchant ==>
         views[i].isMerchant && (views[i].hasEntity <==> request.hasMerchant)
  }

  /** No view with an entity asks for this column, and some view without one does. */
  ghost predicate OnlyFilled(views: seq<View>, c: Column) {
    && (exists i :: 0 <= i < |views| && c in views[i].features)
    && forall i :: 0 <= i < |views| && c in views[i].features ==> !views[i].hasEntity
  }

  /** The cells that belong to these columns. */
  predicate Covers(features: seq<Column>, key: Key) {
    match key
    case Feature(c) => c in features
    case Stamp(c) => c in features
    case _ => false
  }

  /** The columns of an absent merchant become nulls. */
  method FillNulls(view: View, data: map<Key, seq<Cell>>) returns (filled: map<Key, seq<Cell>>)
    ensures forall k :: k in filled <==> k in data || Covers(view.features, k)
    ensures forall k :: k in filled ==> filled[k] == if Covers(view.features, k) then [Null] else data[k]
  {
    filled := data;
    for f := 0 to |view.features|
      invariant forall k :: k in filled <==> k in data || Covers(view.features[..f], k)
      invariant forall k :: k in filled ==> filled[k] == if Covers(view.features[..f], k) then [Null] else data[k]
    {
      var c := view.features[f];
      filled := filled[Feature(c) := [Null]][Stamp(c) := [Null]];
      assert view.features[..f + 1] == view.features[..f] + [c];
    }
    assert view.features[..|view.features|] == view.features;
  }

  /** The view needs no answer, or has got one that holds nothing else. */
  ghost predicate Usable(view: View, response: Response) {
    if !view.hasEntity then view.isMerchant
    else
      && response.Dictionary?
      && forall k :: k in response.cells ==>
           k.Entity? || k.EntityStamp? || ((k.Feature? || k.Stamp?) && k.column in view.features)
  }

  /** What a usable view brings. */
  function Brought(view: View, response: Response, k: Key): Option<seq<Cell>> {
    if !view.hasEntity then (if Covers(view.features, k) then Some([Null]) else None)
    else if response.Dictionary? && k in response.cells then Some(response.cells[k])
    else None
  }

  /** What the latest view that brings this key brings. */
  function LastBrought(views: seq<View>, responses: seq<Response>, k: Key): Option<seq<Cell>>
    requires |responses| == |views|
    decreases |views|
  {
    if views == [] then None
    else
      var n := |views| - 1;
      var last := Brought(views[n], responses[n], k);
      if last.Some? then last else LastBrought(views[..n], responses[..n], k)
  }

  lemma LastBroughtGrows(views: seq<View>, responses: seq<Response>, i: nat, k: Key)
    requires |responses| == |views| && i < |views|
    ensures var last := Brought(views[i], responses[i], k);
            LastBrought(views[..i + 1], responses[..i + 1], k)
            == if last.Some? then last else LastBrought(views[..i], responses[..i], k)
  {
    assert views[..i + 1][..i] == views[..i] && responses[..i + 1][..i] == responses[..i];
  }

  /** The answer that is kept for a key was brought by some view, and by none behind it. */
  lemma {:induction false} LastBroughtIsLast(views: seq<View>, responses: seq<Response>, k: Key)
    requires |responses| == |views|
    ensures LastBrought(views, responses, k).None? <==>
              forall i :: 0 <= i < |views| ==> Brought(views[i], responses[i], k).None?
    ensures LastBrought(views, responses, k).Some? ==>
              exists i :: 0 <= i < |views| && Brought(views[i], responses[i], k) == LastBrought(views, responses, k)
                          && forall j :: i < j < |views| ==> Brought(views[j], responses[j], k).None?
    decreases |views|
  {
    if views == [] {
    } else {
      var n := |views| - 1;
      LastBroughtIsLast(views[..n], responses[..n], k);
      if Brought(views[n], responses[n], k).None? && LastBrought(views[..n], responses[..n], k).Some? {
        var i :| 0 <= i < n && Brought(views[..n][i], responses[..n][i], k) == LastBrought(views, responses, k)
                 && forall j :: i < j < n ==> Brought(views[..n][j], responses[..n][j], k).None?;
        forall j | i < j < |views| ensures Brought(views[j], responses[j], k).None? {
          assert j < n ==> Brought(views[..n][j], responses[..n][j], k).None?;
        }
      }
    }
  }

  /** The views up to this one were usable, and what they brought is kept, the latest last. */
  ghost predicate Merged(views: seq<View>, responses: seq<Response>, data: map<Key, seq<Cell>>)
    requires |responses| == |views|
  {
    forall k :: LastBrought(views, responses, k) == if k in data then Some(data[k]) else None
  }

  lemma MergedGrows(views: seq<View>, responses: seq<Response>, i: nat, data: map<Key, seq<Cell>>,
                    data': map<Key, seq<Cell>>)
    requires |responses| == |views| && i < |views| && Merged(views[..i], responses[..i], data)
    requires forall k :: k in data' <==> k in data || Brought(views[i], responses[i], k).Some?
    requires forall k :: k in data' ==>
               var last := Brought(views[i], responses[i], k);
               data'[k] == if last.Some? then last.value else data[k]
    ensures Merged(views[..i + 1], responses[..i + 1], data')
  {
    forall k
      ensures LastBrought(views[..i + 1], responses[..i + 1], k) == if k in data' then Some(data'[k]) else None
    {
      LastBroughtGrows(views, responses, i, k);
    }
  }

  /** Every view is asked in turn; the first one that cannot be used decides the error. */
  method Retrieve(views: seq<View>, responses: seq<Response>) returns (r: Result<map<Key, seq<Cell>>>)
    requires |responses| == |views|
    ensures r.Ok? <==> forall i :: 0 <= i < |views| ==> Usable(views[i], responses[i])
    ensures r.Ok? ==> Merged(views, responses, r.value)
    ensures r.Err? ==>
              exists i :: 0 <= i < |views| && !Usable(views[i], responses[i])
                          && (forall j :: 0 <= j < i ==> Usable(views[j], responses[j]))
                          && r.fault == if !views[i].hasEntity then ContractBroken
                                        else if responses[i].TimedOut? then BackendTimedOut
                                        else if responses[i].Broken? then BackendFailed
                                        else ContractBroken
    ensures r.Ok? ==> forall k :: k in r.value ==> exists i :: 0 <= i < |views| && Allowed(views[i], k)
    ensures r.Ok? ==> forall c :: OnlyFilled(views, c) ==> Feature(c) in r.value && r.value[Feature(c)] == [Null]
  {
    var data: map<Key, seq<Cell>> := map[];
    for i := 0 to |views|
      invariant forall k :: k in data ==> exists j :: 0 <= j < i && Allowed(views[j], k)
      invariant forall j, c :: 0 <= j < i && c in views[j].features && OnlyFilled(views, c) ==>
                                 Feature(c) in data && data[Feature(c)] == [Null]
      invariant forall j :: 0 <= j < i ==> Usable(views[j], responses[j])
      invariant Merged(views[..i], responses[..i], data)
    {
      var view := views[i];
      ghost var before := data;
      if !view.hasEntity {
        if !view.isMerchant {
          return Err(ContractBroken);
        }
        data := FillNulls(view, data);
      } else {
        match responses[i] {
          case TimedOut => return Err(BackendTimedOut);
          case Broken => return Err(BackendFailed);
          case NotADictionary => return Err(ContractBroken);
          case Dictionary(cells) =>
            if exists k :: k in cells && !Allowed(view, k) {
              return Err(ContractBroken);
            }
            data := data + cells;
        }
      }
      MergedGrows(views, responses, i, before, data);
    }
    assert views[..|views|] == views && responses[..|responses|] == responses;
    r := Ok(data);
  }

  // ---------------------------------------------------------------------------
  // Freshness
  // ---------------------------------------------------------------------------

  datatype Input = Input(schema: Schema, request: Request, data: map<Key, seq<Cell>>, maxStaleness: real)

  datatype Verdict = Missing | NotApplicable | Contradictory | Unreadable | Future | Stale | Fresh

  /** The single cell under a key, if there is exactly one. */
  function One(data: map<Key, seq<Cell>>, key: Key): Option<Cell> {
    if key in data && |data[key]| == 1 then Some(data[key][0]) else None
  }

  /** The seconds of the years 1 to 9999. */
  predicate InCalendar(t: real) {
    -62135596800.0 <= t < 253402300800.0
  }

  function Instant(cell: Cell): (r: Option<real>)
    ensures r.Some? ==>
              (cell.Whole? && r.value == cell.n as real) || cell == Fraction(r.value) || cell == Moment(r.value)
    ensures cell.Moment? ==> r.Some?
    ensures cell.Whole? ==> (r.Some? <==> -62135596800 <= cell.n < 253402300800)
    ensures cell.Fraction? ==> (r.Some? <==> -62135596800.0 <= cell.x < 253402300800.0)
    ensures r.Some? ==> cell.Whole? || cell.Fraction? || cell.Moment?
  {
    match cell
    case Whole(n) => if InCalendar(n as real) then Some(n as real) else None
    case Fraction(x) => if InCalendar(x) then Some(x) else None
    case Moment(t) => Some(t)
    case _ => None
  }

  predicate IsNotApplicable(schema: Schema, request: Request, c: Column) {
    !request.hasMerchant && c in schema.merchant
  }

  /** What becomes of one column, looked at by itself. */
  function Judge(x: Input, c: Column): Verdict {
    var cell, stamp := One(x.data, Feature(c)), One(x.data, Stamp(c));
    if cell.None? then Missing
    else if IsNotApplicable(x.schema, x.request, c) then (if cell.value.Null? then NotApplicable else Contradictory)
    else if cell.value.Null? && c !in x.schema.nullable then Missing
    else if stamp.None? || stamp.value.Null? then Missing
    else if Instant(stamp.value).None? then Unreadable
    else
      var age := x.request.time - Instant(stamp.value).value;
      if age < 0.0 then Future else if age > x.maxStaleness then Stale else Fresh
  }

  predicate StopsAtOnce(v: Verdict) {
    v.Contradictory? || v.Unreadable?
  }

  /** The columns with this verdict, in order. */
  function Judged(x: Input, cs: seq<Column>, v: Verdict): seq<Column>
    decreases |cs|
  {
    if cs == [] then []
    else Judged(x, cs[..|cs| - 1], v) + if Judge(x, cs[|cs| - 1]) == v then [cs[|cs| - 1]] else []
  }

  lemma {:induction false} JudgedElements(x: Input, cs: seq<Column>, v: Verdict)
    ensures forall c :: c in Judged(x, cs, v) <==> c in cs && Judge(x, c) == v
    decreases |cs|
  {
    if cs == [] {
    } else {
      JudgedElements(x, cs[..|cs| - 1], v);
      assert cs == cs[..|cs| - 1] + [cs[|cs| - 1]];
    }
  }

  lemma JudgedGrows(x: Input, cs: seq<Column>, c: Column, v: Verdict)
    ensures Judged(x, cs + [c], v) == Judged(x, cs, v) + if Judge(x, c) == v then [c] else []
  {
    assert (cs + [c])[..|cs|] == cs;
  }

  /** The fault of the first column that stops the scan. */
  function FirstStop(x: Input, cs: seq<Column>): Option<Fault>
    decreases |cs|
  {
    if cs == [] then None
    else if Judge(x, cs[0]).Contradictory? then Some(ContractBroken)
    else if Judge(x, cs[0]).Unreadable? then Some(BadTimestamp)
    else FirstStop(x, cs[1..])
  }

  lemma {:induction false} FirstStopAt(x: Input, cs: seq<Column>, i: nat)
    requires i <= |cs| && forall j :: 0 <= j < i ==> !StopsAtOnce(Judge(x, cs[j]))
    ensures FirstStop(x, cs) == FirstStop(x, cs[i..])
    decreases i
  {
    if i == 0 {
      assert cs[0..] == cs;
    } else {
      FirstStopAt(x, cs[1..], i - 1);
      assert cs[1..][i - 1..] == cs[i..];
    }
  }

  /** What the scan reports as a whole. */
  function ExpectedFault(x: Input): Option<Fault> {
    var cs := x.schema.columns;
    if FirstStop(x, cs).Some? then FirstStop(x, cs)
    else if Judged(x, cs, Missing) != [] then Some(MissingFeatures(Judged(x, cs, Missing)))
    else if Judged(x, cs, Future) != [] then Some(BadTimestamp)
    else if Judged(x, cs, Stale) != [] then Some(StaleFeatures(Judged(x, cs, Stale)))
    else None
  }

  /** No fault means that every column is fresh or not applicable. */
  lemma NoFaultMeansFresh(x: Input)
    ensures ExpectedFault(x).None? <==>
              forall c :: c in x.schema.columns ==> Judge(x, c).Fresh? || Judge(x, c).NotApplicable?
  {
    var cs := x.schema.columns;
    JudgedElements(x, cs, Missing);
    JudgedElements(x, cs, Future);
    JudgedElements(x, cs, Stale);
    StopsSomewhere(x, cs);
    if ExpectedFault(x).Some? && FirstStop(x, cs).None? {
      var bad := if Judged(x, cs, Missing) != [] then Judged(x, cs, Missing)[0]
                 else if Judged(x, cs, Future) != [] then Judged(x, cs, Future)[0] else Judged(x, cs, Stale)[0];
      assert bad in cs;
    }
  }

  /** The first column that stops the scan decides. */
  lemma {:induction false} FirstStopIsFirst(x: Input, cs: seq<Column>)
    ensures FirstStop(x, cs).Some? ==>
              exists i :: 0 <= i < |cs| && (forall j :: 0 <= j < i ==> !StopsAtOnce(Judge(x, cs[j])))
                          && (if Judge(x, cs[i]).Contradictory? then FirstStop(x, cs).value.ContractBroken?
                              else Judge(x, cs[i]).Unreadable? && FirstStop(x, cs).value.BadTimestamp?)
    decreases |cs|
  {
    if cs == [] {
    } else if !StopsAtOnce(Judge(x, cs[0])) {
      FirstStopIsFirst(x, cs[1..]);
      if FirstStop(x, cs).Some? {
        var k :| 0 <= k < |cs[1..]| && (forall j :: 0 <= j < k ==> !StopsAtOnce(Judge(x, cs[1..][j])))
                 && (if Judge(x, cs[1..][k]).Contradictory? then FirstStop(x, cs[1..]).value.ContractBroken?
                     else Judge(x, cs[1..][k]).Unreadable? && FirstStop(x, cs[1..]).value.BadTimestamp?);
        assert cs[1..][k] == cs[k + 1];
        forall j | 0 <= j < k + 1 ensures !StopsAtOnce(Judge(x, cs[j])) {
          assert j > 0 ==> cs[1..][j - 1] == cs[j];
        }
      }
    }
  }

  /** Some column has this verdict. */
  ghost predicate Found(x: Input, v: Verdict) {
    exists c :: c in x.schema.columns && Judge(x, c) == v
  }

  /** Each fault says what was found, and that nothing worse was. */
  lemma FaultsInOrder(x: Input)
    ensures ExpectedFault(x).Some? ==>
              match ExpectedFault(x).value
              case ContractBroken => Found(x, Contradictory)
              case BadTimestamp =>
                Found(x, Unreadable) || (!Found(x, Contradictory) && !Found(x, Missing) && Found(x, Future))
              case MissingFeatures(cs) =>
                && !Found(x, Contradictory) && !Found(x, Unreadable) && cs != []
                && forall c :: c in cs <==> c in x.schema.columns && Judge(x, c).Missing?
              case StaleFeatures(cs) =>
                && !Found(x, Contradictory) && !Found(x, Unreadable) && !Found(x, Missing) && !Found(x, Future)
                && cs != [] && forall c :: c in cs <==> c in x.schema.columns && Judge(x, c).Stale?
              case _ => false
  {
    var cs := x.schema.columns;
    JudgedElements(x, cs, Missing);
    JudgedElements(x, cs, Future);
    JudgedElements(x, cs, Stale);
    StopsSomewhere(x, cs);
    FirstStopIsFirst(x, cs);
    if FirstStop(x, cs).None? && Judged(x, cs, Missing) == [] && Judged(x, cs, Future) != [] {
      assert Judged(x, cs, Future)[0] in Judged(x, cs, Future);
    }
  }

  lemma {:induction false} StopsSomewhere(x: Input, cs: seq<Column>)
    ensures FirstStop(x, cs).Some? <==> exists c :: c in cs && StopsAtOnce(Judge(x, c))
    decreases |cs|
  {
    if cs == [] {
    } else {
      StopsSomewhere(x, cs[1..]);
      assert cs == [cs[0]] + cs[1..];
    }
  }

  /** The column has one value, which may be null only if it is nullable, and one readable time
      within the bound; a column that is not applicable has a null. */
  predicate IsAnswered(x: Input, c: Column) {
    && Feature(c) in x.data && |x.data[Feature(c)]| == 1
    && if !x.request.hasMerchant && c in x.schema.merchant then x.data[Feature(c)][0].Null?
       else
         && (x.data[Feature(c)][0].Null? ==> c in x.schema.nullable)
         && Stamp(c) in x.data && |x.data[Stamp(c)]| == 1 && Instant(x.data[Stamp(c)][0]).Some?
         && 0.0 <= x.request.time - Instant(x.data[Stamp(c)][0]).value <= x.maxStaleness
  }

  lemma NoFaultMeansAnswered(x: Input)
    ensures ExpectedFault(x).None? <==> forall c :: c in x.schema.columns ==> IsAnswered(x, c)
  {
    NoFaultMeansFresh(x);
    forall c | c in x.schema.columns
      ensures IsAnswered(x, c) <==> Judge(x, c).Fresh? || Judge(x, c).NotApplicable?
    {
    }
  }

  datatype Progress = Progress(
    features: FeatureSet, missing: seq<Column>, future: seq<Column>, stale: seq<Column>)

  /** A column that was kept is there with its cell and the time of its stamp. */
  predicate Reported(x: Input, fs: FeatureSet, c: Column) {
    && c in fs.values && c in fs.timestamps && One(x.data, Feature(c)) == Some(fs.values[c])
    && if Judge(x, c).NotApplicable? then fs.timestamps[c].None?
       else One(x.data, Stamp(c)).Some? && Instant(One(x.data, Stamp(c)).value).Some?
            && fs.timestamps[c] == Some(Aware(Instant(One(x.data, Stamp(c)).value).value))
  }

  /** The state of the scan behind these columns. */
  ghost predicate Scanned(x: Input, cs: seq<Column>, p: Progress) {
    && p.missing == Judged(x, cs, Missing) && p.future == Judged(x, cs, Future) && p.stale == Judged(x, cs, Stale)
    && p.features.values.Keys == p.features.timestamps.Keys == (set c | c in cs && !Judge(x, c).Missing?)
    && forall c :: c in cs && !Judge(x, c).Missing? ==> Reported(x, p.features, c)
  }

  /** A column that is not kept. */
  lemma ScanningSkips(x: Input, c: Column, p: Progress, cs: seq<Column>)
    requires Scanned(x, cs, p) && Judge(x, c).Missing?
    ensures Scanned(x, cs + [c], p.(missing := p.missing + [c]))
  {
    JudgedGrows(x, cs, c, Missing);
    JudgedGrows(x, cs, c, Future);
    JudgedGrows(x, cs, c, Stale);
  }

  lemma KeepingReports(x: Input, c: Column, fs: FeatureSet, cs: seq<Column>, value: Cell, t: Option<Timestamp>)
    requires fs.values.Keys == fs.timestamps.Keys == (set k | k in cs && !Judge(x, k).Missing?)
    requires forall k :: k in cs && !Judge(x, k).Missing? ==> Reported(x, fs, k)
    requires !Judge(x, c).Missing? && Reported(x, FeatureSet(fs.values[c := value], fs.timestamps[c := t]), c)
    ensures var fs' := FeatureSet(fs.values[c := value], fs.timestamps[c := t]);
            && fs'.values.Keys == fs'.timestamps.Keys == (set k | k in cs + [c] && !Judge(x, k).Missing?)
            && forall k :: k in cs + [c] && !Judge(x, k).Missing? ==> Reported(x, fs', k)
  {
    var fs' := FeatureSet(fs.values[c := value], fs.timestamps[c := t]);
    forall k | k in cs + [c] && !Judge(x, k).Missing? ensures Reported(x, fs', k) {
      assert k != c ==> Reported(x, fs, k);
    }
  }

  /** A column that is kept, however old it is. */
  lemma ScanningKeeps(
    x: Input, c: Column, p: Progress, cs: seq<Column>, p': Progress, value: Cell, t: Option<Timestamp>)
    requires Scanned(x, cs, p) && !Judge(x, c).Missing?
    requires p'.features == FeatureSet(p.features.values[c := value], p.features.timestamps[c := t])
    requires Reported(x, p'.features, c) && p'.missing == p.missing
    requires p'.future == p.future + if Judge(x, c).Future? then [c] else []
    requires p'.stale == p.stale + if Judge(x, c).Stale? then [c] else []
    ensures Scanned(x, cs + [c], p')
  {
    JudgedGrows(x, cs, c, Missing);
    JudgedGrows(x, cs, c, Future);
    JudgedGrows(x, cs, c, Stale);
    KeepingReports(x, c, p.features, cs, value, t);
  }

  method Scan(x: Input, c: Column, p: Progress, ghost cs: seq<Column>) returns (r: Result<Progress>)
    requires Scanned(x, cs, p)
    ensures r.Err? <==> StopsAtOnce(Judge(x, c))
    ensures r.Err? ==> r.fault == if Judge(x, c).Contradictory? then ContractBroken else BadTimestamp
    ensures r.Ok? ==> Scanned(x, cs + [c], r.value)
  {
    var fs := p.features;
    if Judge(x, c).Missing? {
      ScanningSkips(x, c, p, cs);
    }
    var value := One(x.data, Feature(c));
    if value.None? {
      return Ok(p.(missing := p.missing + [c]));
    }
    if IsNotApplicable(x.schema, x.request, c) {
      if !value.value.Null? {
        return Err(ContractBroken);
      }
      var p' := p.(features := FeatureSet(fs.values[c := Null], fs.timestamps[c := None]));
      ScanningKeeps(x, c, p, cs, p', Null, None);
      return Ok(p');
    }
    if value.value.Null? && c !in x.schema.nullable {
      return Ok(p.(missing := p.missing + [c]));
    }
    var stamp := One(x.data, Stamp(c));
    if stamp.None? || stamp.value.Null? {
      return Ok(p.(missing := p.missing + [c]));
    }
    var time := Instant(stamp.value);
    if time.None? {
      return Err(BadTimestamp);
    }
    var age := x.request.time - time.value;
    var p' := p.(features := FeatureSet(fs.values[c := value.value], fs.timestamps[c := Some(Aware(time.value))]));
    if age < 0.0 {
      p' := p'.(future := p.future + [c]);
    } else if age > x.maxStaleness {
      p' := p'.(stale := p.stale + [c]);
    }
    ScanningKeeps(x, c, p, cs, p', value.value, Some(Aware(time.value)));
    r := Ok(p');
  }

  /** Column by column, until a contradiction or an unreadable time stops the scan. */
  method ScanAll(x: Input) returns (r: Result<Progress>)
    ensures r.Err? <==> FirstStop(x, x.schema.columns).Some?
    ensures r.Err? ==> FirstStop(x, x.schema.columns) == Some(r.fault)
    ensures r.Ok? ==> Scanned(x, x.schema.columns, r.value)
  {
    var columns := x.schema.columns;
    var p := Progress(FeatureSet(map[], map[]), [], [], []);
    for i := 0 to |columns|
      invariant forall j :: 0 <= j < i ==> !StopsAtOnce(Judge(x, columns[j]))
      invariant Scanned(x, columns[..i], p)
    {
      FirstStopAt(x, columns, i);
      var next := Scan(x, columns[i], p, columns[..i]);
      if next.Err? {
        return Err(next.fault);
      }
      p := next.value;
      assert columns[..i + 1] == columns[..i] + [columns[i]];
    }
    assert columns[..|columns|] == columns;
    FirstStopAt(x, columns, |columns|);
    r := Ok(p);
  }

  /** All columns were kept, with their cells and times. */
  ghost predicate ReportsAll(x: Input, fs: FeatureSet) {
    && fs.values.Keys == fs.timestamps.Keys == (set c | c in x.schema.columns)
    && forall c :: c in x.schema.columns ==>
         Reported(x, fs, c) && (Judge(x, c).NotApplicable? || Judge(x, c).Fresh?)
  }

  lemma ScannedFreshReportsAll(x: Input, p: Progress)
    requires Scanned(x, x.schema.columns, p) && ExpectedFault(x).None?
    ensures ReportsAll(x, p.features)
  {
    NoFaultMeansFresh(x);
  }

  /** After the scan, missing columns are reported before future ones, and those before stale
      ones. */
  method GetFeatures(x: Input) returns (r: Result<FeatureSet>)
    requires x.maxStaleness > 0.0
    ensures ExpectedFault(x).Some? ==> r == Err(ExpectedFault(x).value)
    ensures ExpectedFault(x).None? ==> r.Ok? && ReportsAll(x, r.value)
    // In terms of the answers.
    ensures r.Ok? <==> forall c :: c in x.schema.columns ==> IsAnswered(x, c)
    // The fault says what was found, and that nothing worse was.
    ensures r.Err? && r.fault.ContractBroken? ==> Found(x, Contradictory)
    ensures r.Err? && r.fault.StaleFeatures? ==> !Found(x, Missing) && !Found(x, Future)
    ensures r.Err? && r.fault.BadTimestamp? ==> Found(x, Unreadable) || (!Found(x, Missing) && Found(x, Future))
  {
    hide Judge, Found, FirstStop;
    NoFaultMeansAnswered(x);
    FaultsInOrder(x);
    var scanned := ScanAll(x);
    if scanned.Err? {
      return Err(scanned.fault);
    }
    var p := scanned.value;
    if p.missing != [] {
      return Err(MissingFeatures(p.missing));
    }
    if p.future != [] {
      return Err(BadTimestamp);
    }
    if p.stale != [] {
      return Err(StaleFeatures(p.stale));
    }
    ScannedFreshReportsAll(x, p);
    r := Ok(p.features);
  }

  /** What retrieval itself fills in never contradicts the absence of a merchant. */
  lemma RetrievalNeverContradicts(x: Input, views: seq<View>, c: Column)
    requires ViewsFit(x.schema, x.request, views)
    requires forall d :: OnlyFilled(views, d) ==> Feature(d) in x.data && x.data[Feature(d)] == [Null]
    ensures !Judge(x, c).Contradictory?
  {
    if IsNotApplicable(x.schema, x.request, c) {
      assert OnlyFilled(views, c);
    }
  }

  // ---------------------------------------------------------------------------
  // Assembly
  // ---------------------------------------------------------------------------

  predicate WellTyped(schema: Schema, c: Column, cell: Cell) {
    cell.Null? || cell.Whole? || (cell.Fraction? && c !in schema.integers)
  }

  function Normalized(schema: Schema, c: Column, cell: Cell): Cell {
    if cell.Whole? && c !in schema.integers then Fraction(cell.n as real) else cell
  }

  /** The same number as the model takes it: whole for an integer column, a fraction otherwise. */
  predicate Converts(schema: Schema, c: Column, from: Cell, to: Cell) {
    match from
    case Null => to == Null
    case Whole(n) => to == if c in schema.integers then Whole(n) else Fraction(n as real)
    case Fraction(q) => c !in schema.integers && to == Fraction(q)
    case _ => false
  }

  /** A cell or a time that has no place in this column. */
  predicate Breaks(schema: Schema, request: Request, cell: Cell, timestamp: Option<Timestamp>, c: Column) {
    if !request.hasMerchant && c in schema.merchant then !cell.Null? || timestamp.Some?
    else
      && timestamp.Some? && (cell.Null? ==> c in schema.nullable)
      && (timestamp.value.Naive? || !(cell.Null? || cell.Whole? || (cell.Fraction? && c !in schema.integers)))
  }

  datatype Part = Empty | Lacking | Invalid | Contributing(cell: Cell, time: real)

  /** What one column brings to the vector. */
  function PartOf(schema: Schema, request: Request, fs: FeatureSet, c: Column): Part
    requires c in fs.values && c in fs.timestamps
  {
    var cell, timestamp := fs.values[c], fs.timestamps[c];
    if IsNotApplicable(schema, request, c) then (if cell.Null? && timestamp.None? then Empty else Invalid)
    else if timestamp.None? || (cell.Null? && c !in schema.nullable) then Lacking
    else if timestamp.value.Naive? || !WellTyped(schema, c, cell) then Invalid
    else Contributing(Normalized(schema, c, cell), timestamp.value.t)
  }

  predicate HasColumns(schema: Schema, fs: FeatureSet) {
    fs.values.Keys == fs.timestamps.Keys == set c | c in schema.columns
  }

  ghost predicate SomePart(schema: Schema, request: Request, fs: FeatureSet, test: Part -> bool)
    requires HasColumns(schema, fs)
  {
    exists c :: c in schema.columns && test(PartOf(schema, request, fs, c))
  }

  /** The vector has every column, and its time is the earliest of the contributing ones. */
  ghost predicate IsAssembled(schema: Schema, request: Request, fs: FeatureSet, v: Vector)
    requires HasColumns(schema, fs)
  {
    && v.values.Keys == (set c | c in schema.columns)
    && (forall c :: c in schema.columns ==>
          match PartOf(schema, request, fs, c)
          case Empty => v.values[c] == Null
          case Contributing(cell, time) => v.values[c] == cell && v.timestamp <= time
          case _ => false)
    && exists c :: c in schema.columns && PartOf(schema, request, fs, c).Contributing?
                   && PartOf(schema, request, fs, c).time == v.timestamp
  }

  /** The state of assembly behind these columns. */
  ghost predicate Assembled(
    schema: Schema, request: Request, fs: FeatureSet, cs: seq<Column>,
    missing: seq<Column>, values: map<Column, Cell>, earliest: Option<real>)
    requires forall c :: c in cs ==> c in fs.values && c in fs.timestamps
  {
    && (forall c :: c in missing <==> c in cs && PartOf(schema, request, fs, c).Lacking?)
    && (forall c :: c in values ==> c in cs)
    && (forall c :: c in cs ==>
          match PartOf(schema, request, fs, c)
          case Empty => c in values && values[c] == Null
          case Lacking => true
          case Invalid => false
          case Contributing(cell, time) =>
            c in values && values[c] == cell && earliest.Some? && earliest.value <= time)
    && (earliest.Some? ==> exists c :: c in cs && PartOf(schema, request, fs, c).Contributing?
                                       && PartOf(schema, request, fs, c).time == earliest.value)
  }

  method AddPart(schema: Schema, request: Request, fs: FeatureSet, c: Column, ghost cs: seq<Column>,
                 missing: seq<Column>, values: map<Column, Cell>, earliest: Option<real>)
    returns (r: Result<(seq<Column>, map<Column, Cell>, Option<real>)>)
    requires forall d :: d in cs + [c] ==> d in fs.values && d in fs.timestamps
    requires c in fs.values && c in fs.timestamps && Assembled(schema, request, fs, cs, missing, values, earliest)
    ensures r.Err? <==> PartOf(schema, request, fs, c).Invalid?
    ensures r.Err? ==> r.fault.ContractBroken?
    ensures r.Ok? ==> Assembled(schema, request, fs, cs + [c], r.value.0, r.value.1, r.value.2)
    ensures r.Ok? ==>
              var cell, timestamp := fs.values[c], fs.timestamps[c];
              var (missing', values', earliest') := r.value;
              if !request.hasMerchant && c in schema.merchant then
                missing' == missing && values' == values[c := Null] && earliest' == earliest
              else if timestamp.None? || (cell.Null? && c !in schema.nullable) then
                missing' == missing + [c] && values' == values && earliest' == earliest
              else
                && missing' == missing && c in values' && values' == values[c := values'[c]]
                && Converts(schema, c, cell, values'[c]) && timestamp.value.Aware?
                && earliest' == if earliest.Some? && earliest.value <= timestamp.value.t then earliest
                                else Some(timestamp.value.t)
  {
    assert forall d :: d in cs + [c] <==> d in cs || d == c;
    var cell, timestamp := fs.values[c], fs.timestamps[c];
    if IsNotApplicable(schema, request, c) {
      if !cell.Null? || timestamp.Some? {
        return Err(ContractBroken);
      }
      return Ok((missing, values[c := Null], earliest));
    }
    if timestamp.None? || (cell.Null? && c !in schema.nullable) {
      return Ok((missing + [c], values, earliest));
    }
    if timestamp.value.Naive? || !WellTyped(schema, c, cell) {
      return Err(ContractBroken);
    }
    var t := timestamp.value.t;
    var earliest' := if earliest.None? || t < earliest.value then Some(t) else earliest;
    r := Ok((missing, values[c := Normalized(schema, c, cell)], earliest'));
  }

  lemma InvalidPartsBreak(schema: Schema, request: Request, fs: FeatureSet)
    requires HasColumns(schema, fs)
    ensures forall c :: c in schema.columns ==>
              (PartOf(schema, request, fs, c).Invalid? <==>
               Breaks(schema, request, fs.values[c], fs.timestamps[c], c))
  {
  }

  /** The vector in terms of the features themselves: every number is kept, whole in an integer
      column and a fraction otherwise, and the time is the earliest of the applicable ones. */
  ghost predicate IsVector(schema: Schema, request: Request, fs: FeatureSet, v: Vector) {
    && fs.values.Keys == fs.timestamps.Keys == v.values.Keys == (set c | c in schema.columns)
    && (forall c :: c in schema.columns ==>
          var cell, timestamp, to := fs.values[c], fs.timestamps[c], v.values[c];
          if !request.hasMerchant && c in schema.merchant then cell.Null? && timestamp.None? && to.Null?
          else
            && timestamp.Some? && timestamp.value.Aware? && v.timestamp <= timestamp.value.t
            && match cell
               case Null => c in schema.nullable && to.Null?
               case Whole(n) => to == if c in schema.integers then Whole(n) else Fraction(n as real)
               case Fraction(q) => c !in schema.integers && to == Fraction(q)
               case _ => false)
    && exists c :: c in schema.columns && fs.timestamps[c] == Some(Aware(v.timestamp))
  }

  lemma AssembledIsVector(schema: Schema, request: Request, fs: FeatureSet, v: Vector)
    requires HasColumns(schema, fs) && IsAssembled(schema, request, fs, v)
    ensures IsVector(schema, request, fs, v)
  {
  }

  method Assemble(schema: Schema, request: Request, fs: FeatureSet) returns (r: Result<Vector>)
    ensures !HasColumns(schema, fs) ==> r == Err(ContractBroken)
    ensures HasColumns(schema, fs) ==>
              && (r == Err(ContractBroken) <==> SomePart(schema, request, fs, (p: Part) => p.Invalid?))
              && (r.Err? && r.fault.MissingFeatures? <==>
                    !SomePart(schema, request, fs, (p: Part) => p.Invalid?)
                    && (SomePart(schema, request, fs, (p: Part) => p.Lacking?)
                        || !SomePart(schema, request, fs, (p: Part) => p.Contributing?)))
              && (r.Ok? ==> IsAssembled(schema, request, fs, r.value))
    ensures HasColumns(schema, fs) && r.Err? && r.fault.MissingFeatures? ==>
              if SomePart(schema, request, fs, (p: Part) => p.Lacking?)
              then forall c :: c in r.fault.columns <==> c in schema.columns && PartOf(schema, request, fs, c).Lacking?
              else r.fault.columns == schema.columns
    ensures r.Err? ==> r.fault.ContractBroken? || r.fault.MissingFeatures?
    // In terms of the features themselves.
    ensures HasColumns(schema, fs) ==>
              (r == Err(ContractBroken) <==>
                 exists c :: c in schema.columns && Breaks(schema, request, fs.values[c], fs.timestamps[c], c))
    ensures r.Ok? ==> IsVector(schema, request, fs, r.value)
  {
    hide PartOf, Breaks, IsVector;
    if HasColumns(schema, fs) {
      InvalidPartsBreak(schema, request, fs);
    }
    if !HasColumns(schema, fs) {
      return Err(ContractBroken);
    }
    var columns := schema.columns;
    var missing, values: map<Column, Cell>, earliest: Option<real> := [], map[], None;
    for i := 0 to |columns|
      invariant Assembled(schema, request, fs, columns[..i], missing, values, earliest)
    {
      assert columns[i] in columns && columns[..i + 1] == columns[..i] + [columns[i]];
      var next := AddPart(schema, request, fs, columns[i], columns[..i], missing, values, earliest);
      if next.Err? {
        return Err(next.fault);
      }
      missing, values, earliest := next.value.0, next.value.1, next.value.2;
    }
    assert columns[..|columns|] == columns;
    if missing != [] {
      assert missing[0] in missing;
      return Err(MissingFeatures(missing));
    }
    if earliest.None? {
      return Err(MissingFeatures(columns));
    }
    r := Ok(Vector(values, earliest.value));
    AssembledIsVector(schema, request, fs, r.value);
  }

  /** Retrieved features that are fresh never lack a column at assembly, and the vector is at
      most as old as the staleness bound allows. */
  method AssembleOnline(x: Input) returns (r: Result<Vector>)
    requires x.maxStaleness > 0.0
    ensures ExpectedFault(x).Some? ==> r == Err(ExpectedFault(x).value)
    ensures ExpectedFault(x).None? ==>
              && (r.Err? && r.fault.MissingFeatures? <==>
                    forall c :: c in x.schema.columns ==> Judge(x, c).NotApplicable?)
              && (r == Err(ContractBroken) <==>
                    exists c :: c in x.schema.columns && Judge(x, c).Fresh?
                                && !WellTyped(x.schema, c, One(x.data, Feature(c)).value))
    ensures r.Ok? ==> x.request.time - x.maxStaleness <= r.value.timestamp <= x.request.time
    ensures r.Ok? ==> HoldsAnswers(x, r.value)
  {
    var fs := GetFeatures(x);
    if fs.Err? {
      return Err(fs.fault);
    }
    hide Breaks, IsVector, HoldsAnswers, ExpectedFault, Instant, Reported;
    assert HasColumns(x.schema, fs.value);
    PartsAgree(x, fs.value);
    r := Assemble(x.schema, x.request, fs.value);
    if r.Ok? {
      VectorHoldsAnswers(x, fs.value, r.value);
    }
  }

  /** The vector has the retrieved numbers, and its time is the earliest of the applicable stamps. */
  ghost predicate HoldsAnswers(x: Input, v: Vector) {
    && v.values.Keys == (set c | c in x.schema.columns)
    && (forall c :: c in x.schema.columns ==>
          if !x.request.hasMerchant && c in x.schema.merchant then v.values[c].Null?
          else
            && Feature(c) in x.data && |x.data[Feature(c)]| == 1
            && Converts(x.schema, c, x.data[Feature(c)][0], v.values[c])
            && Stamp(c) in x.data && |x.data[Stamp(c)]| == 1 && Instant(x.data[Stamp(c)][0]).Some?
            && v.timestamp <= Instant(x.data[Stamp(c)][0]).value)
    && exists c :: c in x.schema.columns && Stamp(c) in x.data && |x.data[Stamp(c)]| == 1
                   && Instant(x.data[Stamp(c)][0]) == Some(v.timestamp)
  }

  lemma VectorHoldsAnswers(x: Input, fs: FeatureSet, v: Vector)
    requires ReportsAll(x, fs) && IsVector(x.schema, x.request, fs, v)
    ensures HoldsAnswers(x, v)
  {
    forall c | c in x.schema.columns ensures Reported(x, fs, c) {
    }
  }

  lemma PartsAgree(x: Input, fs: FeatureSet)
    requires ReportsAll(x, fs)
    ensures forall c :: c in x.schema.columns ==> PartAgrees(x, fs, c)
  {
    forall c | c in x.schema.columns ensures PartAgrees(x, fs, c) {
      assert Reported(x, fs, c);
    }
  }

  /** A judged column and its part at assembly. */
  ghost predicate PartAgrees(x: Input, fs: FeatureSet, c: Column)
    requires c in fs.values && c in fs.timestamps
  {
    match PartOf(x.schema, x.request, fs, c)
    case Empty => Judge(x, c).NotApplicable?
    case Lacking => false
    case Invalid => Judge(x, c).Fresh? && !WellTyped(x.schema, c, One(x.data, Feature(c)).value)
    case Contributing(_, t) =>
      Judge(x, c).Fresh? && WellTyped(x.schema, c, One(x.data, Feature(c)).value)
      && x.request.time - x.maxStaleness <= t <= x.request.time
  }
}

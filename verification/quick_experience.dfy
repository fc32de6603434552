/**
 * The quick-experience zone of the landing page: one resume file, a list of
 * one to five job-description drafts (url, screenshot and its preview URL),
 * and the analyse button. Object URLs are modelled as numbers handed out by a
 * counter, and the browser's revocations as a log of those numbers; toasts
 * are a log of their messages.
 */
module QuickExperience {
  import opened Common

  /** The file metadata the handlers look at. */
  datatype File = File(mime: string, size: nat)

  /** One job-description draft; `preview` is the object URL of its screenshot. */
  datatype Draft = Draft(
    id: int, content: string, url: string, image: Option<File>,
    preview: Option<nat>, isUrlValid: bool)

  /** The field argument of updateJobDescription. */
  datatype Field = ContentField | UrlField | ImageField | OtherField(name: string)

  /** The value argument: a string, a file input's first file (None for no file), or undefined. */
  datatype Value = Text(s: string) | FileValue(f: Option<File>) | Undefined

  /** The property names of a draft. */
  const PropertyNames: set<string> := {"id", "content", "url", "image", "previewUrl", "isUrlValid"}

  /** The 5 MiB cap shared by the resume and the screenshots. */
  const MaxFileSize: nat := 5 * 1024 * 1024
  const MaxDrafts: nat := 5
  const Pdf := "application/pdf"

  const NotPdf := "請上傳 PDF 格式檔案"
  const TooLarge := "檔案大小不能超過 5MB"
  const Uploaded := "履歷上傳成功"
  const ShotTooLarge := "截圖大小不能超過 5MB"
  const TooMany := "最多可添加 5 個職位描述"
  const NoResume := "請先上傳您的履歷"
  const Done := "分析完成！"

  /** The draft list of the first render. */
  const InitialDrafts: seq<Draft> := [Draft(1, "", "", None, None, true)]

  /** A field and a value as the component pairs them; a name typed into the description box that is itself a property name is not modelled. */
  predicate Fits(field: Field, value: Value) {
    match field
    case ContentField => value.Text?
    case UrlField => value.Text?
    case ImageField => value.FileValue?
    case OtherField(name) => value.Undefined? && name !in PropertyNames
  }

  /** The resume check: the type first, then the size; None means accepted, otherwise the error shown. */
  function ResumeCheck(f: File): (r: Option<string>)
    ensures r.None? <==> f.mime == Pdf && f.size <= MaxFileSize
    ensures f.mime != Pdf ==> r == Some(NotPdf)
    ensures f.mime == Pdf && f.size > MaxFileSize ==> r == Some(TooLarge)
  {
    if f.mime != Pdf then Some(NotPdf)
    else if f.size > MaxFileSize then Some(TooLarge)
    else None
  }

  /** What the map callback does to one draft whose id matched. */
  datatype Step = Step(d: Draft, revoke: Option<nat>, created: bool, rejected: bool)

  function EditEntry(jd: Draft, field: Field, value: Value, token: nat, urlOk: string -> bool): (s: Step)
    requires Fits(field, value)
    ensures s.d.id == jd.id
    ensures s.created ==> s.d.preview == Some(token)
    ensures s.revoke.Some? ==> s.revoke == jd.preview
    ensures s.d.preview != jd.preview ==> s.created || s.d.preview.None?
  {
    match field
    case ContentField => Step(jd.(content := value.s), None, false, false)
    case UrlField => Step(jd.(url := value.s, isUrlValid := value.s == "" || urlOk(value.s)), None, false, false)
    case ImageField =>
      var f := value.f;
      if f.Some? && f.value.size > MaxFileSize then Step(jd, None, false, true)
      else Step(jd.(image := f, preview := if f.Some? then Some(token) else None), jd.preview, f.Some?, false)
    case OtherField(_) => Step(jd, None, false, false)
  }

  /** The result of mapping the callback over the list: new drafts, revocations, next object URL, rejected screenshots. */
  datatype Outcome = Outcome(drafts: seq<Draft>, revoked: seq<nat>, next: nat, rejections: nat)

  /** What a step adds to the revocation log, the counter and the rejection count. */
  function Revocation(s: Step): seq<nat> { if s.revoke.Some? then [s.revoke.value] else [] }
  function Advance(s: Step, next: nat): nat { if s.created then next + 1 else next }
  function Rejection(s: Step): nat { if s.rejected then 1 else 0 }

  /** A callback mapped over the drafts front to back, with the object-URL counter threaded through. */
  function Run(ds: seq<Draft>, f: (Draft, nat) -> Step, next: nat): (o: Outcome)
    ensures |o.drafts| == |ds| && o.next >= next
  {
    if ds == [] then Outcome([], [], next, 0)
    else
      var s := f(ds[0], next);
      var o := Run(ds[1..], f, Advance(s, next));
      Outcome([s.d] + o.drafts, Revocation(s) + o.revoked, o.next, Rejection(s) + o.rejections)
  }

  /** The map callback on one draft: drafts with another id come back unchanged. */
  function Callback(jd: Draft, id: int, field: Field, value: Value, token: nat, urlOk: string -> bool): Step
    requires Fits(field, value)
  {
    if jd.id != id then Step(jd, None, false, false) else EditEntry(jd, field, value, token, urlOk)
  }

  function CallbackOn(id: int, field: Field, value: Value, urlOk: string -> bool): (Draft, nat) -> Step
    requires Fits(field, value)
  {
    (jd: Draft, token: nat) => Callback(jd, id, field, value, token, urlOk)
  }

  /** The map of updateJobDescription. */
  function MapUpdate(ds: seq<Draft>, id: int, field: Field, value: Value, next: nat, urlOk: string -> bool): Outcome
    requires Fits(field, value)
  {
    Run(ds, CallbackOn(id, field, value, urlOk), next)
  }
  /** The previews of the drafts with id `id`, in list order. */
  function PreviewsWithId(ds: seq<Draft>, id: int): seq<nat> {
    if ds == [] then []
    else (if ds[0].id == id && ds[0].preview.Some? then [ds[0].preview.value] else []) + PreviewsWithId(ds[1..], id)
  }

  /** The drafts with another id, in order: the filter of removeJobDescription. */
  function Without(ds: seq<Draft>, id: int): (r: seq<Draft>)
    ensures |r| <= |ds|
  {
    if ds == [] then []
    else (if ds[0].id != id then [ds[0]] else []) + Without(ds[1..], id)
  }

  /** The first draft with id `id`: the find of removeJobDescription. */
  function FindFirst(ds: seq<Draft>, id: int): (r: Option<Draft>)
    ensures r.Some? ==> r.value in ds && r.value.id == id
    ensures r.None? ==> forall d :: d in ds ==> d.id != id
  {
    if ds == [] then None else if ds[0].id == id then Some(ds[0]) else FindFirst(ds[1..], id)
  }

  predicate UniqueIds(ds: seq<Draft>) {
    forall i, j :: 0 <= i < j < |ds| ==> ds[i].id != ds[j].id
  }

  function Repeat(msg: string, n: nat): (r: seq<string>)
    ensures |r| == n && forall i :: 0 <= i < n ==> r[i] == msg
  {
    if n == 0 then [] else [msg] + Repeat(msg, n - 1)
  }

  class QuickExperienceZone {
    var resumeFile: Option<File>
    var drafts: seq<Draft>
    var isAnalyzing: bool
    /** Object URLs revoked so far, in order. */
    var revoked: seq<nat>
    /** The next object URL createObjectURL hands out. */
    var nextUrl: nat
    /** Toast messages shown so far, in order. */
    var notices: seq<string>
    /** The url regular expression, left abstract. */
    const urlOk: string -> bool

    /** At most five drafts, and every live or revoked object URL was handed out before. */
    predicate Valid()
      reads this
    {
      && |drafts| <= MaxDrafts
      && (forall d :: d in drafts && d.preview.Some? ==> d.preview.value < nextUrl)
      && (forall u :: u in revoked ==> u < nextUrl)
    }

    constructor(urlOk: string -> bool)
      ensures Valid()
      ensures drafts == InitialDrafts && resumeFile.None? && !isAnalyzing
      ensures revoked == [] && notices == [] && this.urlOk == urlOk
    {
      this.urlOk := urlOk;
      resumeFile := None;
      drafts := InitialDrafts;
      isAnalyzing := false;
      revoked := [];
      nextUrl := 0;
      notices := [];
    }

    /** handleFileUpload: an absent file does nothing; a rejected one only raises its toast. */
    method HandleFileUpload(file: Option<File>)
      requires Valid()
      modifies this
      ensures Valid()
      ensures file.None? ==> resumeFile == old(resumeFile) && notices == old(notices)
      ensures file.Some? && ResumeCheck(file.value).Some? ==>
        resumeFile == old(resumeFile) && notices == old(notices) + [ResumeCheck(file.value).value]
      ensures file.Some? && ResumeCheck(file.value).None? ==>
        resumeFile == file && notices == old(notices) + [Uploaded]
      ensures drafts == old(drafts) && revoked == old(revoked) && nextUrl == old(nextUrl)
      ensures isAnalyzing == old(isAnalyzing)
    {
      if file.Some? {
        var f := file.value;
        if f.mime != Pdf {
          notices := notices + [NotPdf];
          return;
        }
        if f.size > MaxFileSize {
          notices := notices + [TooLarge];
          return;
        }
        resumeFile := file;
        notices := notices + [Uploaded];
      }
    }

    /** updateJobDescription: the map callback applied to every draft, front to back. */
    method UpdateJobDescription(id: int, field: Field, value: Value)
      requires Valid() && Fits(field, value)
      modifies this
      ensures Valid()
      ensures var o := MapUpdate(old(drafts), id, field, value, old(nextUrl), urlOk);
        && drafts == o.drafts && revoked == old(revoked) + o.revoked && nextUrl == o.next
        && notices == old(notices) + Repeat(ShotTooLarge, o.rejections)
      ensures resumeFile == old(resumeFile) && isAnalyzing == old(isAnalyzing)
    {
      var o := MapDrafts(drafts, id, field, value, nextUrl, urlOk);
      MapUpdateBelow(drafts, id, field, value, nextUrl, nextUrl, urlOk);
      forall u | u in revoked + o.revoked ensures u < o.next {
        if u !in revoked {
          assert u in o.revoked;
        }
      }
      drafts, revoked, nextUrl := o.drafts, revoked + o.revoked, o.next;
      notices := notices + Repeat(ShotTooLarge, o.rejections);
    }

    /** The description box's change handler, which passes the typed text as the field name and no value. */
    method TypeDescription(id: int, typed: string)
      requires Valid() && typed !in PropertyNames
      modifies this
      ensures Valid()
      ensures drafts == old(drafts) && revoked == old(revoked) && nextUrl == old(nextUrl) && notices == old(notices)
      ensures resumeFile == old(resumeFile) && isAnalyzing == old(isAnalyzing)
    {
      DescriptionBoxAsWritten(drafts, id, typed, nextUrl, urlOk);
      UpdateJobDescription(id, OtherField(typed), Undefined);
    }

    /** addJobDescription: append an empty draft with the clock's time as id while fewer than five exist. */
    method AddJobDescription(now: int)
      requires Valid()
      modifies this
      ensures Valid()
      ensures |old(drafts)| < MaxDrafts ==>
        drafts == old(drafts) + [Draft(now, "", "", None, None, true)] && notices == old(notices)
      ensures |old(drafts)| >= MaxDrafts ==> drafts == old(drafts) && notices == old(notices) + [TooMany]
      ensures resumeFile == old(resumeFile) && revoked == old(revoked) && nextUrl == old(nextUrl)
      ensures isAnalyzing == old(isAnalyzing)
    {
      if |drafts| < MaxDrafts {
        drafts := drafts + [Draft(now, "", "", None, None, true)];
      } else {
        notices := notices + [TooMany];
      }
    }

    /** removeJobDescription: with more than one draft, revoke the first match's preview and drop every match. */
    method RemoveJobDescription(id: int)
      requires Valid()
      modifies this
      ensures Valid()
      ensures |old(drafts)| <= 1 ==> drafts == old(drafts) && revoked == old(revoked)
      ensures |old(drafts)| > 1 ==>
        && drafts == Without(old(drafts), id)
        && revoked == old(revoked) + (match FindFirst(old(drafts), id)
             case Some(t) => (if t.preview.Some? then [t.preview.value] else [])
             case None => [])
      ensures resumeFile == old(resumeFile) && nextUrl == old(nextUrl) && notices == old(notices)
      ensures isAnalyzing == old(isAnalyzing)
    {
      if |drafts| > 1 {
        var target := FindFirst(drafts, id);
        if target.Some? && target.value.preview.Some? {
          revoked := revoked + [target.value.preview.value];
        }
        WithoutSubset(drafts, id);
        drafts := Without(drafts, id);
      }
    }

    /** handleAnalyze up to the timer: without a resume only the toast; otherwise start analysing. */
    method HandleAnalyze()
      requires Valid()
      modifies this
      ensures Valid()
      ensures old(resumeFile).None? ==> isAnalyzing == old(isAnalyzing) && notices == old(notices) + [NoResume]
      ensures old(resumeFile).Some? ==> isAnalyzing && notices == old(notices)
      ensures resumeFile == old(resumeFile) && drafts == old(drafts) && revoked == old(revoked) && nextUrl == old(nextUrl)
    {
      if resumeFile.None? {
        notices := notices + [NoResume];
        return;
      }
      isAnalyzing := true;
    }

    /** The timer callback of handleAnalyze. */
    method FinishAnalyze()
      requires Valid()
      modifies this
      ensures Valid()
      ensures !isAnalyzing && notices == old(notices) + [Done]
      ensures resumeFile == old(resumeFile) && drafts == old(drafts) && revoked == old(revoked) && nextUrl == old(nextUrl)
    {
      isAnalyzing := false;
      notices := notices + [Done];
    }

    /** The two unmount effects revoke the previews of the list they captured: the first render's. */
    method Unmount()
      requires Valid()
      modifies this
      ensures Valid()
      ensures revoked == old(revoked) + PreviewsOf(InitialDrafts) + PreviewsOf(InitialDrafts)
      ensures drafts == old(drafts) && resumeFile == old(resumeFile) && nextUrl == old(nextUrl)
      ensures notices == old(notices) && isAnalyzing == old(isAnalyzing)
    {
      InitialHasNoPreview();
      revoked := revoked + PreviewsOf(InitialDrafts) + PreviewsOf(InitialDrafts);
    }
  }

  /** An outcome behind drafts, revocations and rejections already collected. */
  function After(acc: seq<Draft>, revoked: seq<nat>, rejections: nat, o: Outcome): Outcome {
    Outcome(acc + o.drafts, revoked + o.revoked, o.next, rejections + o.rejections)
  }

  /** One step of the map moves the callback's result on the draft at `i` into what is collected. */
  lemma RunStep(ds: seq<Draft>, i: nat, f: (Draft, nat) -> Step, cur: nat, acc: seq<Draft>, revoked: seq<nat>, rejections: nat)
    requires i < |ds|
    ensures var s := f(ds[i], cur);
      After(acc, revoked, rejections, Run(ds[i..], f, cur)) ==
      After(acc + [s.d], revoked + Revocation(s), rejections + Rejection(s), Run(ds[i + 1..], f, Advance(s, cur)))
  {
    assert ds[i..][0] == ds[i] && ds[i..][1..] == ds[i + 1..];
    var s := f(ds[i], cur);
    var t := Run(ds[i + 1..], f, Advance(s, cur));
    assert Run(ds[i..], f, cur) == Outcome([s.d] + t.drafts, Revocation(s) + t.revoked, t.next, Rejection(s) + t.rejections);
    Regroup(acc, s.d, t.drafts);
    assert revoked + (Revocation(s) + t.revoked) == (revoked + Revocation(s)) + t.revoked;
  }

  /** The map over the drafts, front to back, counting object URLs and rejected screenshots as it goes. */
  method MapDrafts(ds: seq<Draft>, id: int, field: Field, value: Value, next: nat, urlOk: string -> bool) returns (all: Outcome)
    requires Fits(field, value)
    ensures all == MapUpdate(ds, id, field, value, next, urlOk)
  {
    var acc: seq<Draft> := [];
    var accRevoked: seq<nat> := [];
    var rejections: nat := 0;
    var cur := next;
    ghost var f := CallbackOn(id, field, value, urlOk);
    ghost var spec := Run(ds, f, next);
    assert ds[0..] == ds;
    var i := 0;
    while i < |ds|
      invariant 0 <= i <= |ds|
      invariant spec == After(acc, accRevoked, rejections, Run(ds[i..], f, cur))
    {
      var s := Callback(ds[i], id, field, value, cur, urlOk);
      assert f(ds[i], cur) == s;
      RunStep(ds, i, f, cur, acc, accRevoked, rejections);
      acc, accRevoked := acc + [s.d], accRevoked + Revocation(s);
      rejections, cur := rejections + Rejection(s), Advance(s, cur);
      i := i + 1;
    }
    assert ds[|ds|..] == [];
    assert acc + [] == acc && accRevoked + [] == accRevoked;
    all := Outcome(acc, accRevoked, cur, rejections);
  }

  lemma Regroup<T>(a: seq<T>, x: T, b: seq<T>)
    ensures a + ([x] + b) == (a + [x]) + b
  {
  }
  /** Every preview in the list, in order. */
  function PreviewsOf(ds: seq<Draft>): seq<nat> {
    if ds == [] then [] else (if ds[0].preview.Some? then [ds[0].preview.value] else []) + PreviewsOf(ds[1..])
  }

  /** The unmount effects revoke nothing: the list they captured holds no preview. */
  lemma InitialHasNoPreview()
    ensures PreviewsOf(InitialDrafts) == []
  {
    assert InitialDrafts[1..] == [];
  }

  lemma {:induction false} RepeatSnoc(msg: string, n: nat)
    ensures Repeat(msg, n) + [msg] == Repeat(msg, n + 1)
  {
  }

  /** Drafts only ever lose entries by filtering. */
  lemma {:induction false} WithoutSubset(ds: seq<Draft>, id: int)
    ensures forall d :: d in Without(ds, id) <==> d in ds && d.id != id
  {
    if ds != [] {
      WithoutSubset(ds[1..], id);
      assert ds == [ds[0]] + ds[1..];
    }
  }

  /** A step never hands out a preview other than the token it was given, and only revokes the draft's own preview. */
  ghost predicate Honest(f: (Draft, nat) -> Step) {
    forall d: Draft, t: nat ::
      && (f(d, t).created ==> f(d, t).d.preview == Some(t))
      && (f(d, t).revoke.Some? ==> f(d, t).revoke == d.preview)
      && (f(d, t).d.preview != d.preview ==> f(d, t).created || f(d, t).d.preview.None?)
  }

  /** Under an honest callback, every preview and every revoked URL was handed out before the counter's new value. */
  lemma {:induction false} RunBelow(ds: seq<Draft>, f: (Draft, nat) -> Step, bound: nat, next: nat)
    requires Honest(f) && bound <= next
    requires forall d :: d in ds && d.preview.Some? ==> d.preview.value < bound
    ensures var o := Run(ds, f, next);
      && (forall d :: d in o.drafts && d.preview.Some? ==> d.preview.value < o.next)
      && (forall u :: u in o.revoked ==> u < bound)
  {
    if ds != [] {
      var s := f(ds[0], next);
      var o := Run(ds, f, next);
      var t := Run(ds[1..], f, Advance(s, next));
      assert forall d :: d in ds[1..] ==> d in ds;
      RunBelow(ds[1..], f, bound, Advance(s, next));
      assert o.drafts == [s.d] + t.drafts && o.revoked == Revocation(s) + t.revoked;
      assert s.d.preview.Some? ==> s.d.preview.value < o.next by {
        assert ds[0] in ds;
      }
      assert forall u :: u in Revocation(s) ==> u < bound by {
        assert ds[0] in ds;
      }
      forall u | u in o.revoked ensures u < bound {
        if u !in Revocation(s) {
          assert u in t.revoked;
        }
      }
      forall d | d in o.drafts && d.preview.Some? ensures d.preview.value < o.next {
        if d != s.d {
          assert d in t.drafts;
        }
      }
    }
  }

  /** Each draft comes out as the callback made it, with a token between the counter's old and new values. */
  lemma {:induction false} RunAt(ds: seq<Draft>, f: (Draft, nat) -> Step, next: nat)
    ensures var o := Run(ds, f, next);
      forall k :: 0 <= k < |ds| ==> MadeWith(f, ds[k], o.drafts[k], next, o.next)
  {
    if ds != [] {
      var s := f(ds[0], next);
      var o := Run(ds, f, next);
      var rest := Run(ds[1..], f, Advance(s, next));
      RunAt(ds[1..], f, Advance(s, next));
      forall k | 0 <= k < |ds|
        ensures MadeWith(f, ds[k], o.drafts[k], next, o.next)
      {
        if k == 0 {
          assert o.drafts[0] == f(ds[0], next).d && Advance(s, next) <= o.next;
        } else {
          assert o.drafts[k] == rest.drafts[k - 1] && ds[k] == ds[1..][k - 1];
          assert MadeWith(f, ds[1..][k - 1], rest.drafts[k - 1], Advance(s, next), rest.next);
          var u: nat :| Advance(s, next) <= u <= rest.next && rest.drafts[k - 1] == f(ds[1..][k - 1], u).d
            && (f(ds[1..][k - 1], u).created ==> u < rest.next);
          assert next <= u <= o.next;
        }
      }
    }
  }

  /** `out` is what `f` makes of `d` with some token from `lo` up to `hi`, below `hi` when the step takes it. */
  ghost predicate MadeWith(f: (Draft, nat) -> Step, d: Draft, out: Draft, lo: nat, hi: nat) {
    exists t: nat :: lo <= t <= hi && out == f(d, t).d && (f(d, t).created ==> t < hi)
  }

  /** A callback that revokes, creates and rejects nothing leaves the log, the counter and the toasts alone. */
  lemma {:induction false} RunQuiet(ds: seq<Draft>, f: (Draft, nat) -> Step, next: nat)
    requires forall d, t :: f(d, t).revoke.None? && !f(d, t).created && !f(d, t).rejected
    ensures var o := Run(ds, f, next);
      o.revoked == [] && o.next == next && o.rejections == 0
  {
    if ds != [] {
      RunQuiet(ds[1..], f, next);
    }
  }

  /** The callback's checks, for any draft and token. */
  lemma CallbackHonest(id: int, field: Field, value: Value, urlOk: string -> bool)
    requires Fits(field, value)
    ensures Honest(CallbackOn(id, field, value, urlOk))
  {
    var f := CallbackOn(id, field, value, urlOk);
    forall d: Draft, t: nat
      ensures && (f(d, t).created ==> f(d, t).d.preview == Some(t))
              && (f(d, t).revoke.Some? ==> f(d, t).revoke == d.preview)
              && (f(d, t).d.preview != d.preview ==> f(d, t).created || f(d, t).d.preview.None?)
    {
      assert f(d, t) == Callback(d, id, field, value, t, urlOk);
    }
  }

  /** Object URLs after an update: every preview and every revoked URL was handed out before the counter's new value. */
  lemma MapUpdateBelow(ds: seq<Draft>, id: int, field: Field, value: Value, bound: nat, next: nat, urlOk: string -> bool)
    requires Fits(field, value) && bound <= next
    requires forall d :: d in ds && d.preview.Some? ==> d.preview.value < bound
    ensures var o := MapUpdate(ds, id, field, value, next, urlOk);
      && (forall d :: d in o.drafts && d.preview.Some? ==> d.preview.value < o.next)
      && (forall u :: u in o.revoked ==> u < bound)
  {
    var f := CallbackOn(id, field, value, urlOk);
    CallbackHonest(id, field, value, urlOk);
    RunBelow(ds, f, bound, next);
    assert MapUpdate(ds, id, field, value, next, urlOk) == Run(ds, f, next);
  }

  /** The update changes only drafts with the given id, keeps every id and the order, and edits each match by the callback. */
  lemma MapUpdateAt(ds: seq<Draft>, id: int, field: Field, value: Value, next: nat, urlOk: string -> bool)
    requires Fits(field, value)
    ensures var o := MapUpdate(ds, id, field, value, next, urlOk);
      forall k :: 0 <= k < |ds| ==>
        && o.drafts[k].id == ds[k].id
        && (ds[k].id != id ==> o.drafts[k] == ds[k])
        && (ds[k].id == id ==> exists t ::
              && next <= t <= o.next
              && o.drafts[k] == EditEntry(ds[k], field, value, t, urlOk).d
              && (EditEntry(ds[k], field, value, t, urlOk).created ==> t < o.next))
  {
    var f := CallbackOn(id, field, value, urlOk);
    var o := Run(ds, f, next);
    RunAt(ds, f, next);
    forall k | 0 <= k < |ds|
      ensures o.drafts[k].id == ds[k].id
      ensures ds[k].id != id ==> o.drafts[k] == ds[k]
      ensures ds[k].id == id ==> exists t ::
              && next <= t <= o.next
              && o.drafts[k] == EditEntry(ds[k], field, value, t, urlOk).d
              && (EditEntry(ds[k], field, value, t, urlOk).created ==> t < o.next)
    {
      assert MadeWith(f, ds[k], o.drafts[k], next, o.next);
      var t: nat :| next <= t <= o.next && o.drafts[k] == f(ds[k], t).d && (f(ds[k], t).created ==> t < o.next);
      assert f(ds[k], t) == Callback(ds[k], id, field, value, t, urlOk);
    }
  }

  /** A url edit sets the url and its validity (true for "", the pattern's verdict otherwise) on the matching drafts, and nothing else. */
  lemma UrlEdit(ds: seq<Draft>, id: int, v: string, next: nat, urlOk: string -> bool)
    ensures var o := MapUpdate(ds, id, UrlField, Text(v), next, urlOk);
      && o.revoked == [] && o.next == next && o.rejections == 0
      && forall k :: 0 <= k < |ds| ==>
           o.drafts[k] == if ds[k].id == id then ds[k].(url := v, isUrlValid := v == "" || urlOk(v)) else ds[k]
  {
    MapUpdateAt(ds, id, UrlField, Text(v), next, urlOk);
    NoImageNoEffects(ds, id, UrlField, Text(v), next, urlOk);
  }

  /** Edits of fields other than the screenshot revoke nothing, create nothing and reject nothing. */
  lemma NoImageNoEffects(ds: seq<Draft>, id: int, field: Field, value: Value, next: nat, urlOk: string -> bool)
    requires Fits(field, value) && !field.ImageField?
    ensures var o := MapUpdate(ds, id, field, value, next, urlOk);
      o.revoked == [] && o.next == next && o.rejections == 0
  {
    RunQuiet(ds, CallbackOn(id, field, value, urlOk), next);
  }

  /** Number of drafts with id `id`. */
  function CountId(ds: seq<Draft>, id: int): nat {
    if ds == [] then 0 else (if ds[0].id == id then 1 else 0) + CountId(ds[1..], id)
  }

  /** A callback that only rejects the drafts with one id changes nothing and counts those drafts. */
  lemma {:induction false} RunRejects(ds: seq<Draft>, f: (Draft, nat) -> Step, id: int, next: nat)
    requires forall d, t :: f(d, t) == Step(d, None, false, d.id == id)
    ensures Run(ds, f, next) == Outcome(ds, [], next, CountId(ds, id))
  {
    if ds != [] {
      RunRejects(ds[1..], f, id, next);
      assert ds == [ds[0]] + ds[1..];
    }
  }

  /** An oversized screenshot leaves every draft as it was: no revocation, no new preview, one toast per matching draft. */
  lemma OversizedScreenshot(ds: seq<Draft>, id: int, f: File, next: nat, urlOk: string -> bool)
    requires f.size > MaxFileSize
    ensures MapUpdate(ds, id, ImageField, FileValue(Some(f)), next, urlOk) == Outcome(ds, [], next, CountId(ds, id))
  {
    RunRejects(ds, CallbackOn(id, ImageField, FileValue(Some(f)), urlOk), id, next);
  }

  /** A callback that revokes exactly the matching drafts' previews revokes, over the list, the previews with that id. */
  lemma {:induction false} RunRevokes(ds: seq<Draft>, f: (Draft, nat) -> Step, id: int, next: nat)
    requires forall d, t :: f(d, t).revoke == (if d.id == id then d.preview else None) && !f(d, t).rejected
    ensures var o := Run(ds, f, next);
      o.revoked == PreviewsWithId(ds, id) && o.rejections == 0
  {
    if ds != [] {
      RunRevokes(ds[1..], f, id, Advance(f(ds[0], next), next));
    }
  }

  /**
   * An accepted screenshot (or its removal) revokes exactly the previews the
   * matching drafts had, and each matching draft gets the file and a fresh
   * preview exactly when there is a file.
   */
  lemma ScreenshotEdit(ds: seq<Draft>, id: int, f: Option<File>, next: nat, urlOk: string -> bool)
    requires f.None? || f.value.size <= MaxFileSize
    ensures var o := MapUpdate(ds, id, ImageField, FileValue(f), next, urlOk);
      && o.revoked == PreviewsWithId(ds, id)
      && o.rejections == 0
      && forall k :: 0 <= k < |ds| && ds[k].id == id ==>
           && o.drafts[k] == ds[k].(image := f, preview := o.drafts[k].preview)
           && (o.drafts[k].preview.Some? <==> f.Some?)
           && (f.Some? ==> next <= o.drafts[k].preview.value < o.next)
  {
    MapUpdateAt(ds, id, ImageField, FileValue(f), next, urlOk);
    RunRevokes(ds, CallbackOn(id, ImageField, FileValue(f), urlOk), id, next);
  }

  /**
   * The description box passes the typed text as the field name and no
   * value: unless the text is a property name, no draft changes, so its
   * content stays as it was.
   */
  lemma DescriptionBoxAsWritten(ds: seq<Draft>, id: int, typed: string, next: nat, urlOk: string -> bool)
    requires typed !in PropertyNames
    ensures MapUpdate(ds, id, OtherField(typed), Undefined, next, urlOk) == Outcome(ds, [], next, 0)
  {
    MapUpdateAt(ds, id, OtherField(typed), Undefined, next, urlOk);
    NoImageNoEffects(ds, id, OtherField(typed), Undefined, next, urlOk);
    var o := MapUpdate(ds, id, OtherField(typed), Undefined, next, urlOk);
    assert o.drafts == ds;
  }

  /** With "content" as the field, the typed text lands in the matching drafts and nowhere else. */
  lemma DescriptionBoxCorrected(ds: seq<Draft>, id: int, typed: string, next: nat, urlOk: string -> bool)
    ensures var o := MapUpdate(ds, id, ContentField, Text(typed), next, urlOk);
      && o.revoked == [] && o.next == next
      && forall k :: 0 <= k < |ds| ==> o.drafts[k] == if ds[k].id == id then ds[k].(content := typed) else ds[k]
  {
    MapUpdateAt(ds, id, ContentField, Text(typed), next, urlOk);
    NoImageNoEffects(ds, id, ContentField, Text(typed), next, urlOk);
  }
  /** With distinct ids, removing from a list of two or more leaves at least one draft. */
  lemma {:induction false} RemoveKeepsOne(ds: seq<Draft>, id: int)
    requires UniqueIds(ds)
    ensures |Without(ds, id)| >= |ds| - 1
  {
    if ds != [] {
      if ds[0].id == id {
        assert forall d :: d in ds[1..] ==> d.id != id by {
          forall d | d in ds[1..] ensures d.id != id {
            var j :| 0 <= j < |ds[1..]| && ds[1..][j] == d;
            assert ds[j + 1] == d;
          }
        }
        WithoutNone(ds[1..], id);
      } else {
        RemoveKeepsOne(ds[1..], id);
      }
    }
  }

  lemma {:induction false} WithoutNone(ds: seq<Draft>, id: int)
    requires forall d :: d in ds ==> d.id != id
    ensures Without(ds, id) == ds
  {
    if ds != [] {
      assert forall d :: d in ds[1..] ==> d in ds;
      WithoutNone(ds[1..], id);
      assert ds == [ds[0]] + ds[1..];
    }
  }

  /** Ids taken from the clock can coincide; two drafts made in the same millisecond are removed together, leaving none. */
  lemma SameMillisecondRemovesAll()
    ensures var d := Draft(1700000000000, "", "", None, None, true);
      Without([d, d], 1700000000000) == []
  {
    var d := Draft(1700000000000, "", "", None, None, true);
    assert [d, d][1..] == [d];
    assert [d][1..] == [];
  }

  /** Adding a draft whose clock id is new keeps the ids distinct. */
  lemma AddKeepsIdsUnique(ds: seq<Draft>, now: int)
    requires UniqueIds(ds) && forall d :: d in ds ==> d.id != now
    ensures UniqueIds(ds + [Draft(now, "", "", None, None, true)])
  {
    var e := ds + [Draft(now, "", "", None, None, true)];
    forall i, j | 0 <= i < j < |e| ensures e[i].id != e[j].id {
      if j == |ds| {
        assert e[i] == ds[i] && ds[i] in ds;
      } else {
        assert e[i] == ds[i] && e[j] == ds[j];
      }
    }
  }
}

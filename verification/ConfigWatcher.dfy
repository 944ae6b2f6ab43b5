/**
 The polling configuration watcher of internal/config/watch.go. The digest is taken to be injective, so contents stand
 for their own digests; what parses and validates is a parameter.
 */
module ConfigWatching {
  import opened Bytes

  /** One reading of the file: its content, or the message of a read error. */
  datatype Reading = Content(text: string) | Failure(message: string)

  datatype Report = ReadError(message: string) | BadConfig(text: string)

  /** The watcher, the content that is running, and the errors reported so far. */
  datatype Watch = Watch(lastHash: string, lastErr: string, running: string, reports: seq<Report>)

  predicate Loads(valid: string -> bool, r: Reading) {
    r.Content? && valid(r.text)
  }

  /** One poll, which reads the file twice: once to hash it and, if it is new, once to load it. */
  function Poll(valid: string -> bool, w: Watch, hashed: Reading, loaded: Reading): Watch {
    match hashed
    case Failure(message) =>
      if message == w.lastErr then w else w.(lastErr := message, reports := w.reports + [ReadError(message)])
    case Content(text) =>
      if text == w.lastHash then w.(lastErr := "")
      else match loaded
        case Failure(message) => w.(lastErr := "", lastHash := text, reports := w.reports + [ReadError(message)])
        case Content(text') =>
          if valid(text') then w.(lastErr := "", lastHash := text', running := text')
          else w.(lastErr := "", lastHash := text, reports := w.reports + [BadConfig(text')])
  }

  class Watcher {
    const valid: string -> bool
    var lastHash: string
    var lastErr: string
    var running: string        // what onReload was last given, or the config the watcher was built over
    var reports: seq<Report>   // what onError has been given

    function View(): Watch
      reads this
    {
      Watch(lastHash, lastErr, running, reports)
    }

    constructor (valid: string -> bool, running: string)
      ensures this.valid == valid && View() == Watch(running, "", running, [])
    {
      this.valid := valid;
      lastHash, lastErr, this.running, reports := running, "", running, [];
    }

    method OnePoll(hashed: Reading, loaded: Reading)
      modifies this
      ensures View() == Poll(valid, old(View()), hashed, loaded)
    {
      if hashed.Failure? {
        if hashed.message != lastErr {
          lastErr := hashed.message;
          reports := reports + [ReadError(hashed.message)];
        }
        return;
      }
      lastErr := "";
      if hashed.text == lastHash {
        return;
      }
      lastHash := hashed.text;
      if loaded.Failure? {
        reports := reports + [ReadError(loaded.message)];
        return;
      }
      if !valid(loaded.text) {
        reports := reports + [BadConfig(loaded.text)];
        return;
      }
      lastHash := loaded.text;
      running := loaded.text;
    }
  }

  // ---------- convergence ----------

  /** If what was last considered is valid, it is what runs. */
  predicate Settled(valid: string -> bool, w: Watch) {
    valid(w.lastHash) ==> w.running == w.lastHash
  }

  /**
   The file is caught between two writes: a new valid content is hashed, but something that does not load is read back.
   */
  predicate Torn(valid: string -> bool, w: Watch, hashed: Reading, loaded: Reading) {
    && Loads(valid, hashed) && hashed.text != w.lastHash && hashed.text != w.running
    && !Loads(valid, loaded)
  }

  /** A poll leaves the watcher settled unless, and only unless, it is torn. */
  lemma SettledExactly(valid: string -> bool, w: Watch, hashed: Reading, loaded: Reading)
    requires Settled(valid, w)
    ensures Settled(valid, Poll(valid, w, hashed, loaded)) <==> !Torn(valid, w, hashed, loaded)
  {
  }

  /** After a steady poll of a valid content, that content runs, provided the watcher was settled. */
  lemma SteadyPollConverges(valid: string -> bool, w: Watch, text: string)
    requires Settled(valid, w) && valid(text)
    ensures Poll(valid, w, Content(text), Content(text)).running == text
  {
  }

  /** A torn poll is not mended by polling again: the valid content it hashed is taken for seen, and stays unapplied. */
  lemma TornPollSticks(valid: string -> bool, w: Watch, hashed: Reading, loaded: Reading)
    requires Torn(valid, w, hashed, loaded)
    ensures var torn := Poll(valid, w, hashed, loaded);
            Poll(valid, torn, hashed, hashed).running == w.running != hashed.text
  {
  }

  // ---------- whole runs ----------

  /** The file as it was found at each poll, unchanged while a poll lasts. */
  function Polls(valid: string -> bool, w: Watch, tr: seq<Reading>): Watch {
    if tr == [] then w else Poll(valid, Polls(valid, w, Front(tr)), Last(tr), Last(tr))
  }

  /** The content found most recently, if any poll has read the file. */
  function LastFound(initially: string, tr: seq<Reading>): string {
    if tr == [] then initially
    else if Last(tr).Content? then Last(tr).text
    else LastFound(initially, Front(tr))
  }

  /** The valid content found most recently, the initial one counting as found. */
  function LastValid(valid: string -> bool, initially: string, tr: seq<Reading>): string {
    if tr == [] then initially
    else if Loads(valid, Last(tr)) then Last(tr).text
    else LastValid(valid, initially, Front(tr))
  }

  /** The message of the read error that is going on, if the last poll met one. */
  function ErrorGoingOn(tr: seq<Reading>): string {
    if tr != [] && Last(tr).Failure? then Last(tr).message else ""
  }

  /**
   What is to be reported over a run: an invalid content when it is not the one found just before, and a read error when
   the same one is not going on already.
   */
  function DueReports(valid: string -> bool, initially: string, tr: seq<Reading>): seq<Report> {
    if tr == [] then []
    else
      var before, r := Front(tr), Last(tr);
      DueReports(valid, initially, before) +
      if r.Failure? && r.message != ErrorGoingOn(before) then [ReadError(r.message)]
      else if r.Content? && !valid(r.text) && r.text != LastFound(initially, before) then [BadConfig(r.text)]
      else []
  }

  /**
   Over any run of steady polls from a valid configuration: what runs is always the valid content found last, so
   nothing invalid is ever applied and neither a fix nor a revert is missed; and each broken content and each read
   error is reported once for as long as it stays, in order, and nothing else is.
   */
  lemma {:induction false} RunConverges(valid: string -> bool, initially: string, tr: seq<Reading>)
    requires valid(initially)
    ensures var w := Polls(valid, Watch(initially, "", initially, []), tr);
            && w.running == LastValid(valid, initially, tr) && valid(w.running)
            && w.lastHash == LastFound(initially, tr) && w.lastErr == ErrorGoingOn(tr)
            && w.reports == DueReports(valid, initially, tr)
  {
    if tr == [] {
    } else {
      RunConverges(valid, initially, Front(tr));
      ValidFoundLast(valid, initially, Front(tr));
      SteadyStep(valid, Polls(valid, Watch(initially, "", initially, []), Front(tr)), Last(tr));
    }
  }

  /** One steady poll of a settled watcher. */
  lemma SteadyStep(valid: string -> bool, w: Watch, r: Reading)
    requires Settled(valid, w)
    ensures var w' := Poll(valid, w, r, r);
            && w'.running == (if Loads(valid, r) then r.text else w.running)
            && w'.lastHash == (if r.Content? then r.text else w.lastHash)
            && w'.lastErr == (if r.Failure? then r.message else "")
            && w'.reports == w.reports +
                 if r.Failure? && r.message != w.lastErr then [ReadError(r.message)]
                 else if r.Content? && !valid(r.text) && r.text != w.lastHash then [BadConfig(r.text)]
                 else []
  {
    assert w.reports + [] == w.reports;
  }

  lemma {:induction false} ValidFoundLast(valid: string -> bool, initially: string, tr: seq<Reading>)
    requires valid(initially)
    ensures valid(LastFound(initially, tr)) ==> LastValid(valid, initially, tr) == LastFound(initially, tr)
  {
    if tr == [] {
    } else {
      ValidFoundLast(valid, initially, Front(tr));
    }
  }
}

/**
 * The screening session: `main` lists the chosen directory once and visits
 * each `.txt` entry in listing order; `plot_eeg_data` reads the file, skips
 * it when no line parsed, plots seven fixed channels (an uncaught `KeyError`
 * when one of them is not a column), and waits for one of three buttons:
 * Preserve (drop a `[Bad]` prefix), Tag as Bad (add one), Exit (end the
 * program). Closing the window without a button moves on with no rename.
 *
 * The directory is the `Folder` object whose `files` map the renames update;
 * the figure and its callbacks' shared state is the `ReviewWindow` object.
 * The button the user presses for each displayed file is an input.
 */
module Screener {
  import opened Wrappers
  import opened PyText
  import opened PyFloat
  import opened EegReader
  import opened Tagging

  /** The contents of the screened directory: base name to the file's lines. */
  type Files = map<string, seq<string>>

  /** What the user does with a displayed file. */
  datatype Decision = Preserve | TagBad | Exit | Close

  /** What happened to one visited `.txt` entry. */
  datatype Step =
    | Missing                      // `open` raised: the name is no longer in the directory
    | Skipped                      // no line parsed: nothing displayed, nothing renamed
    | Unplottable(channel: string) // `df[channel]` raised `KeyError`
    | Decided(decision: Decision)  // displayed, and the user chose `decision`

  /** How the run ended: the listing ran out, Exit was pressed, or an exception escaped `main`. */
  datatype Status = Finished | Exited | Crashed

  /** One file's review: the directory afterwards and what happened. */
  datatype Review = Review(files: Files, step: Step)

  /** A whole run: the directory afterwards, the visited entries with their steps, and how it ended. */
  datatype Outcome = Outcome(files: Files, visited: seq<(string, Step)>, status: Status)

  /** The channels the display indexes, in plotting order. */
  const Channels: seq<string> := ["Pz", "F4", "C4", "P4", "P3", "C3", "F3"]

  const TxtSuffix: string := ".txt"

  // ---------------------------------------------------------------------------
  // The display step

  /** A data frame built from `rows` has column `key`: some row holds it. */
  predicate HasColumn(rows: seq<Record>, key: string) {
    exists i :: 0 <= i < |rows| && key in rows[i]
  }

  /** The first of `channels` that is not a column of the frame, if any. */
  function MissingChannel(rows: seq<Record>, channels: seq<string>): (r: Option<string>)
    ensures r.None? <==> forall i :: 0 <= i < |channels| ==> HasColumn(rows, channels[i])
    ensures r.Some? ==> exists k :: (0 <= k < |channels| && channels[k] == r.value &&
      !HasColumn(rows, channels[k]) && forall j :: 0 <= j < k ==> HasColumn(rows, channels[j]))
  {
    if channels == [] then None
    else if !HasColumn(rows, channels[0]) then Some(channels[0])
    else
      var r := MissingChannel(rows, channels[1..]);
      if r.Some? then
        var k :| 0 <= k < |channels| - 1 && channels[1..][k] == r.value
          && !HasColumn(rows, channels[1..][k]) && forall j :: 0 <= j < k ==> HasColumn(rows, channels[1..][j]);
        assert channels[k + 1] == r.value && forall j :: 1 <= j < k + 1 ==> channels[j] == channels[1..][j - 1];
        r
      else r
  }

  /** The plotting loop: the first of the seven channels `df[channel]` fails on. */
  method FirstMissingChannel(rows: seq<Record>) returns (r: Option<string>)
    ensures r == MissingChannel(rows, Channels)
  {
    var idx := 0;
    while idx < |Channels|
      invariant 0 <= idx <= |Channels|
      invariant MissingChannel(rows, Channels) == MissingChannel(rows, Channels[idx..])
    {
      assert Channels[idx..][1..] == Channels[idx + 1..];
      if !HasColumn(rows, Channels[idx]) {
        return Some(Channels[idx]);
      }
      idx := idx + 1;
    }
    r := None;
  }

  // ---------------------------------------------------------------------------
  // Renames

  /** `os.rename(src, dst)` inside the directory: the file moves, replacing any file named `dst`. */
  function Renamed(files: Files, src: string, dst: string): (r: Files)
    requires src in files
    ensures r.Keys == files.Keys - {src} + {dst}
    ensures r[dst] == files[src]
    ensures forall k :: k in files && k != src && k != dst ==> r[k] == files[k]
  {
    (files - {src})[dst := files[src]]
  }

  /** The directory after `remove_bad_tag` on `name`. */
  function Untagged(files: Files, name: string): Files
    requires name in files
  {
    if IsTagged(name) then Renamed(files, name, UntaggedName(name)) else files
  }

  /** The directory after `tag_as_bad` on `name`. */
  function Tagged(files: Files, name: string): Files
    requires name in files
  {
    if IsTagged(name) then files else Renamed(files, name, TaggedName(name))
  }

  /** Renaming a file away and back restores the directory when nothing was in the way. */
  lemma RenameBack(files: Files, src: string, dst: string)
    requires src in files && dst !in files
    ensures Renamed(Renamed(files, src, dst), dst, src) == files
  {
    var there := Renamed(files, src, dst);
    var back := Renamed(there, dst, src);
    assert back.Keys == files.Keys;
    forall k | k in files ensures back[k] == files[k] {
      if k == src {
      } else {
        assert k != dst;
      }
    }
  }

  /** Tag as Bad, then Preserve on the new name, restores the directory of an untagged file. */
  lemma TagThenPreserve(files: Files, name: string)
    requires name in files && !IsTagged(name) && TaggedName(name) !in files
    ensures TaggedName(name) in Tagged(files, name)
    ensures Untagged(Tagged(files, name), TaggedName(name)) == files
  {
    UntagTag(name);
    RenameBack(files, name, TaggedName(name));
  }

  /** Tagging replaces a file that already carries the tagged name: one file fewer. */
  lemma TagReplacesExisting(files: Files, name: string)
    requires name in files && !IsTagged(name) && TaggedName(name) in files
    ensures |Tagged(files, name).Keys| == |files.Keys| - 1
  {
    var after := Tagged(files, name);
    assert files.Keys - {name} + {TaggedName(name)} == files.Keys - {name};
  }

  // ---------------------------------------------------------------------------
  // One file and the whole run, as functions

  /** `plot_eeg_data` on `name`, where `decision` is what the user does if the file is displayed. */
  function ReviewFile(files: Files, name: string, decision: Decision): (r: Review)
    ensures r.step.Missing? <==> name !in files
    ensures r.step.Decided? ==> name in files && r.step.decision == decision
    ensures forall k :: k in files && k != name ==> k in r.files
    ensures r.files.Keys <= files.Keys + {TaggedName(name), UntaggedName(name)}
  {
    if name !in files then Review(files, Missing)
    else
      var rows := Session(files[name]);
      if rows == [] then Review(files, Skipped)
      else match MissingChannel(rows, Channels)
        case Some(c) => Review(files, Unplottable(c))
        case None =>
          match decision
          case Preserve => Review(Untagged(files, name), Decided(Preserve))
          case TagBad => Review(Tagged(files, name), Decided(TagBad))
          case Exit => Review(files, Decided(Exit))
          case Close => Review(files, Decided(Close))
  }

  /** A step after which `main` does not go on: `sys.exit`, or an uncaught exception. */
  predicate Stops(step: Step) {
    step.Missing? || step.Unplottable? || step == Decided(Exit)
  }

  function StopStatus(step: Step): Status {
    if step == Decided(Exit) then Exited else Crashed
  }

  /**
   * The loop of `main` over the listing; `decisions[i]` is the button pressed
   * if entry `i` is displayed.
   */
  function Run(files: Files, listing: seq<string>, decisions: seq<Decision>): (o: Outcome)
    requires |decisions| == |listing|
    ensures |o.visited| <= |listing|
    decreases |listing|
  {
    if listing == [] then Outcome(files, [], Finished)
    else if !EndsWith(listing[0], TxtSuffix) then Run(files, listing[1..], decisions[1..])
    else
      var review := ReviewFile(files, listing[0], decisions[0]);
      if Stops(review.step) then Outcome(review.files, [(listing[0], review.step)], StopStatus(review.step))
      else
        var rest := Run(review.files, listing[1..], decisions[1..]);
        Outcome(rest.files, [(listing[0], review.step)] + rest.visited, rest.status)
  }

  /** The `.txt` entries of a listing, in order. */
  function TxtNames(listing: seq<string>): (names: seq<string>)
    ensures |names| <= |listing|
    ensures forall i :: 0 <= i < |names| ==> EndsWith(names[i], TxtSuffix) && names[i] in listing
  {
    if listing == [] then []
    else (if EndsWith(listing[0], TxtSuffix) then [listing[0]] else []) + TxtNames(listing[1..])
  }

  function Names(visited: seq<(string, Step)>): (names: seq<string>)
    ensures |names| == |visited|
  {
    if visited == [] then [] else [visited[0].0] + Names(visited[1..])
  }

  lemma NamesCons(name: string, step: Step, visited: seq<(string, Step)>)
    ensures Names([(name, step)] + visited) == [name] + Names(visited)
    ensures ([(name, step)] + visited)[1..] == visited
  {
    assert ([(name, step)] + visited)[1..] == visited;
  }

  /** What the run carrying on after `first` gives, when `first` finished its listing. */
  function Then(first: Outcome, rest: Outcome): Outcome {
    Outcome(rest.files, first.visited + rest.visited, rest.status)
  }

  // ---------------------------------------------------------------------------
  // Properties of the run

  /**
   * The run visits the `.txt` entries in listing order, each once: the visited
   * names are a prefix of them, all of them when the run finished.
   */
  lemma {:induction false} RunVisitsTxtInOrder(files: Files, listing: seq<string>, decisions: seq<Decision>)
    requires |decisions| == |listing|
    ensures var o := Run(files, listing, decisions);
      && |o.visited| <= |TxtNames(listing)|
      && Names(o.visited) == TxtNames(listing)[..|o.visited|]
      && (o.status == Finished ==> |o.visited| == |TxtNames(listing)|)
    decreases |listing|
  {
    if listing != [] {
      if !EndsWith(listing[0], TxtSuffix) {
        RunVisitsTxtInOrder(files, listing[1..], decisions[1..]);
        assert TxtNames(listing) == TxtNames(listing[1..]);
      } else {
        var review := ReviewFile(files, listing[0], decisions[0]);
        assert TxtNames(listing) == [listing[0]] + TxtNames(listing[1..]);
        if !Stops(review.step) {
          var rest := Run(review.files, listing[1..], decisions[1..]);
          RunVisitsTxtInOrder(review.files, listing[1..], decisions[1..]);
          RunStepVisited(files, listing, decisions);
          NamesCons(listing[0], review.step, rest.visited);
        }
      }
    }
  }

  /** Every visited entry but the last went on; the last stopped the run exactly when the run did not finish. */
  lemma {:induction false} RunStopsAtLast(files: Files, listing: seq<string>, decisions: seq<Decision>)
    requires |decisions| == |listing|
    ensures var o := Run(files, listing, decisions);
      && (o.status != Finished ==> o.visited != [] && Stops(o.visited[|o.visited| - 1].1))
      && (o.status == Finished && o.visited != [] ==> !Stops(o.visited[|o.visited| - 1].1))
      && (forall k :: 0 <= k < |o.visited| - 1 ==> !Stops(o.visited[k].1))
      && (o.status == Exited <==> o.visited != [] && o.visited[|o.visited| - 1].1 == Decided(Exit))
      && (o.status == Crashed <==> o.visited != [] && (o.visited[|o.visited| - 1].1.Missing? ||
                                                       o.visited[|o.visited| - 1].1.Unplottable?))
    decreases |listing|
  {
    RunEndsAtLast(files, listing, decisions);
    if listing != [] {
      if !EndsWith(listing[0], TxtSuffix) {
        RunStopsAtLast(files, listing[1..], decisions[1..]);
      } else {
        var review := ReviewFile(files, listing[0], decisions[0]);
        if !Stops(review.step) {
          var rest := Run(review.files, listing[1..], decisions[1..]);
          RunStopsAtLast(review.files, listing[1..], decisions[1..]);
          RunStepVisited(files, listing, decisions);
          NamesCons(listing[0], review.step, rest.visited);
        }
      }
    }
  }

  /** How a run ended is decided by its last visited step. */
  lemma {:induction false} RunEndsAtLast(files: Files, listing: seq<string>, decisions: seq<Decision>)
    requires |decisions| == |listing|
    ensures var o := Run(files, listing, decisions);
      && (o.status == Exited <==> o.visited != [] && o.visited[|o.visited| - 1].1 == Decided(Exit))
      && (o.status == Crashed <==> o.visited != [] && (o.visited[|o.visited| - 1].1.Missing? ||
                                                       o.visited[|o.visited| - 1].1.Unplottable?))
    decreases |listing|
  {
    if listing != [] {
      if !EndsWith(listing[0], TxtSuffix) {
        RunEndsAtLast(files, listing[1..], decisions[1..]);
      } else {
        var review := ReviewFile(files, listing[0], decisions[0]);
        if !Stops(review.step) {
          var rest := Run(review.files, listing[1..], decisions[1..]);
          RunEndsAtLast(review.files, listing[1..], decisions[1..]);
          RunStepVisited(files, listing, decisions);
          LastOfCons((listing[0], review.step), rest.visited);
        }
      }
    }
  }

  /** The last element of `[x] + v`. */
  lemma LastOfCons<T>(x: T, v: seq<T>)
    ensures ([x] + v)[|v|] == if v == [] then x else v[|v| - 1]
  {
  }

  /** The head and tail of a concatenation whose first part is not empty. */
  lemma AppendTail<T>(a: seq<T>, b: seq<T>)
    requires a != []
    ensures (a + b)[0] == a[0] && (a + b)[1..] == a[1..] + b
  {
  }

  lemma AppendAssoc<T>(x: seq<T>, y: seq<T>, z: seq<T>)
    ensures x + (y + z) == (x + y) + z
  {
  }

  /** The run over two listings is the run over the first, then, if it finished, the run over the second. */
  lemma {:induction false} RunCompose(files: Files, a: seq<string>, b: seq<string>, da: seq<Decision>, db: seq<Decision>)
    requires |da| == |a| && |db| == |b|
    ensures var first := Run(files, a, da);
      Run(files, a + b, da + db) == if first.status == Finished then Then(first, Run(first.files, b, db)) else first
    decreases |a|
  {
    if a == [] {
      assert a + b == b && da + db == db;
    } else {
      AppendTail(a, b);
      AppendTail(da, db);
      var review := ReviewFile(files, a[0], da[0]);
      if !EndsWith(a[0], TxtSuffix) {
        RunCompose(files, a[1..], b, da[1..], db);
      } else if !Stops(review.step) {
        RunCompose(review.files, a[1..], b, da[1..], db);
        RunComposeStep(files, a, b, da, db);
      }
    }
  }

  /** The step case of `RunCompose`: a `.txt` head whose review goes on, with the rest composing. */
  lemma RunComposeStep(files: Files, a: seq<string>, b: seq<string>, da: seq<Decision>, db: seq<Decision>)
    requires |da| == |a| && |db| == |b| && a != [] && EndsWith(a[0], TxtSuffix)
    requires !Stops(ReviewFile(files, a[0], da[0]).step)
    requires var review := ReviewFile(files, a[0], da[0]);
      var first := Run(review.files, a[1..], da[1..]);
      Run(review.files, a[1..] + b, da[1..] + db)
        == if first.status == Finished then Then(first, Run(first.files, b, db)) else first
    ensures var first := Run(files, a, da);
      Run(files, a + b, da + db) == if first.status == Finished then Then(first, Run(first.files, b, db)) else first
  {
    AppendTail(a, b);
    AppendTail(da, db);
    var review := ReviewFile(files, a[0], da[0]);
    RunStepVisited(files, a + b, da + db);
    RunStepVisited(files, a, da);
    var head := [(a[0], review.step)];
    var first := Run(review.files, a[1..], da[1..]);
    if first.status == Finished {
      var second := Run(first.files, b, db);
      AppendAssoc(head, first.visited, second.visited);
    }
  }

  /** Once Exit is pressed (or an exception escapes), no later entry is visited and the directory stays as it was. */
  lemma ExitIgnoresRest(files: Files, a: seq<string>, b: seq<string>, da: seq<Decision>, db: seq<Decision>)
    requires |da| == |a| && |db| == |b|
    requires Run(files, a, da).status != Finished
    ensures Run(files, a + b, da + db) == Run(files, a, da)
  {
    RunCompose(files, a, b, da, db);
  }

  /**
   * One review renames at most the visited file: only Preserve on a tagged
   * name and Tag as Bad on an untagged name rename it, to the untagged and the
   * tagged name, and keep its lines; every other step leaves the directory as
   * it was.
   */
  lemma ReviewFileEffect(files: Files, name: string, decision: Decision)
    ensures var review := ReviewFile(files, name, decision);
      && (review.step.Decided? <==> (name in files && Session(files[name]) != [] &&
            forall i :: 0 <= i < |Channels| ==> HasColumn(Session(files[name]), Channels[i])))
      && (review.step.Decided? ==> review.step.decision == decision)
      && (review.step != Decided(Preserve) && review.step != Decided(TagBad) ==> review.files == files)
      && (review.step == Decided(Preserve) ==>
            UntaggedName(name) in review.files && review.files[UntaggedName(name)] == files[name]
            && (IsTagged(name) ==> review.files.Keys == files.Keys - {name} + {UntaggedName(name)})
            && (!IsTagged(name) ==> review.files == files))
      && (review.step == Decided(TagBad) ==>
            TaggedName(name) in review.files && review.files[TaggedName(name)] == files[name]
            && (!IsTagged(name) ==> review.files.Keys == files.Keys - {name} + {TaggedName(name)})
            && (IsTagged(name) ==> review.files == files))
  {
  }

  /** A file none of whose lines parses is never displayed and never renamed. */
  lemma EmptySessionSkipped(files: Files, name: string, decision: Decision)
    requires name in files && forall line :: line in files[name] ==> ParseRecord(line).Failure?
    ensures ReviewFile(files, name, decision) == Review(files, Skipped)
  {
    SessionEmptyIff(files[name]);
  }

  /** A review moves at most the reviewed file: every other file of the directory is still there afterwards. */
  lemma ReviewKeepsOthers(files: Files, name: string, decision: Decision, other: string)
    requires other in files && other != name
    ensures other in ReviewFile(files, name, decision).files
    ensures other != TaggedName(name) && other != UntaggedName(name) ==>
      ReviewFile(files, name, decision).files[other] == files[other]
  {
  }

  /**
   * When the listing names distinct files of the directory, as `os.listdir`
   * gives them, every visited entry is still there when its turn comes: a
   * rename only moves the file being reviewed.
   */
  lemma {:induction false} RunNeverMissing(files: Files, listing: seq<string>, decisions: seq<Decision>)
    requires |decisions| == |listing|
    requires forall i, j :: 0 <= i < j < |listing| ==> listing[i] != listing[j]
    requires forall i :: 0 <= i < |listing| ==> listing[i] in files
    ensures var o := Run(files, listing, decisions);
      forall k :: 0 <= k < |o.visited| ==> o.visited[k].1 != Missing
    decreases |listing|
  {
    if listing != [] {
      var rest := listing[1..];
      assert forall i, j :: 0 <= i < j < |rest| ==> rest[i] != rest[j] by {
        forall i, j | 0 <= i < j < |rest| ensures rest[i] != rest[j] {
          assert rest[i] == listing[i + 1] && rest[j] == listing[j + 1];
        }
      }
      if !EndsWith(listing[0], TxtSuffix) {
        RunNeverMissing(files, rest, decisions[1..]);
        var o := Run(files, listing, decisions);
        assert o.visited == Run(files, rest, decisions[1..]).visited;
        assert forall k :: 0 <= k < |o.visited| ==> o.visited[k].1 != Missing;
      } else {
        var review := ReviewFile(files, listing[0], decisions[0]);
        if !Stops(review.step) {
          forall i | 0 <= i < |rest| ensures rest[i] in review.files {
            assert rest[i] == listing[i + 1] != listing[0];
            ReviewKeepsOthers(files, listing[0], decisions[0], rest[i]);
          }
          RunNeverMissing(review.files, rest, decisions[1..]);
          RunStepVisited(files, listing, decisions);
        }
      }
    }
  }

  /** A `.txt` entry whose review does not stop the run is visited first, followed by the rest of the run. */
  lemma RunStepVisited(files: Files, listing: seq<string>, decisions: seq<Decision>)
    requires |decisions| == |listing| && listing != [] && EndsWith(listing[0], TxtSuffix)
    requires !Stops(ReviewFile(files, listing[0], decisions[0]).step)
    ensures var review := ReviewFile(files, listing[0], decisions[0]);
      var rest := Run(review.files, listing[1..], decisions[1..]);
      Run(files, listing, decisions) == Outcome(rest.files, [(listing[0], review.step)] + rest.visited, rest.status)
  {
  }

  // ---------------------------------------------------------------------------
  // The display step on concrete files

  /** An accepted line of the file gives one of the frame's rows. */
  lemma SessionHoldsLine(lines: seq<string>, k: nat)
    requires k < |lines| && ParseRecord(lines[k]).Success?
    ensures exists j :: 0 <= j < |Session(lines)| && Session(lines)[j] == ParseRecord(lines[k]).value
  {
    SessionRows(lines);
    assert lines[k] in lines;
  }

  /** A file with an accepted line whose record holds all seven channels is displayed, whatever else it holds. */
  lemma ChannelRecordDisplays(lines: seq<string>, k: nat)
    requires k < |lines| && ParseRecord(lines[k]).Success?
    requires forall i :: 0 <= i < |Channels| ==> Channels[i] in ParseRecord(lines[k]).value
    ensures Session(lines) != []
    ensures MissingChannel(Session(lines), Channels) == None
  {
    SessionHoldsLine(lines, k);
    var rows := Session(lines);
    var j :| 0 <= j < |rows| && rows[j] == ParseRecord(lines[k]).value;
    RowWithAllChannels(rows, j);
  }

  /** One row holding all seven channels makes every channel a column. */
  lemma RowWithAllChannels(rows: seq<Record>, j: nat)
    requires j < |rows| && forall i :: 0 <= i < |Channels| ==> Channels[i] in rows[j]
    ensures MissingChannel(rows, Channels) == None
  {
    forall i | 0 <= i < |Channels| ensures HasColumn(rows, Channels[i]) {
      assert Channels[i] in rows[j];
    }
  }

  /** The record of a well-formed line naming all seven channels holds all seven. */
  lemma SevenChannelLine(t: int, v: int, a: int, channels: seq<(string, int)>, marker: Option<string>)
    requires forall i :: 0 <= i < |channels| ==> PlainName(channels[i].0)
    requires marker.Some? ==> PlainMarker(marker.value)
    requires forall c :: c in Channels ==> exists i :: 0 <= i < |channels| && channels[i].0 == c
    ensures var r := ParseRecord(LineText(t, v, a, channels, marker));
      r.Success? && forall i :: 0 <= i < |Channels| ==> Channels[i] in r.value
  {
    var base := BaseRecord(Finite(t as real), Finite(v as real), Finite(a as real));
    ParseLineText(t, v, a, channels, marker);
    StoredKeys(base, channels);
    forall i | 0 <= i < |Channels| ensures Channels[i] in Stored(base, channels) {
      var c := Channels[i];
      assert c in Channels;
      var n :| 0 <= n < |channels| && channels[n].0 == c;
    }
  }

  /** A file holding a well-formed line with all seven channels is displayed, whatever else it holds. */
  lemma SevenChannelFileDisplays(lines: seq<string>, k: nat, t: int, v: int, a: int,
                                 channels: seq<(string, int)>, marker: Option<string>)
    requires k < |lines| && lines[k] == LineText(t, v, a, channels, marker)
    requires forall i :: 0 <= i < |channels| ==> PlainName(channels[i].0)
    requires marker.Some? ==> PlainMarker(marker.value)
    requires forall c :: c in Channels ==> exists i :: 0 <= i < |channels| && channels[i].0 == c
    ensures Session(lines) != []
    ensures MissingChannel(Session(lines), Channels) == None
  {
    SevenChannelLine(t, v, a, channels, marker);
    ChannelRecordDisplays(lines, k);
  }

  /**
   * A file that exists but is not displayed: `Skipped` exactly when no line
   * parsed, `Unplottable` exactly when it has rows but lacks a channel, and
   * then the first channel the plotting loop fails on.
   */
  lemma ReviewFileStep(files: Files, name: string, decision: Decision)
    ensures var r := ReviewFile(files, name, decision);
      && (r.step == Skipped <==> name in files && Session(files[name]) == [])
      && (r.step.Unplottable? <==> name in files && Session(files[name]) != []
                                   && MissingChannel(Session(files[name]), Channels).Some?)
      && (r.step.Unplottable? ==> MissingChannel(Session(files[name]), Channels) == Some(r.step.channel))
  {
  }

  /** A file with rows holding `Pz` but never `F4` raises `KeyError` at `F4`, which ends the run as a crash. */
  lemma NoF4EndsRun(files: Files, name: string, decision: Decision)
    requires name in files && HasColumn(Session(files[name]), "Pz")
    requires forall i :: 0 <= i < |Session(files[name])| ==> "F4" !in Session(files[name])[i]
    ensures var r := ReviewFile(files, name, decision);
      r.step == Unplottable("F4") && Stops(r.step) && StopStatus(r.step) == Crashed && r.files == files
  {
    NoF4StopsAtF4(Session(files[name]));
  }

  /** Frames whose rows hold `Pz` and never `F4` stop the plotting loop at `F4`. */
  lemma NoF4StopsAtF4(rows: seq<Record>)
    requires HasColumn(rows, "Pz")
    requires forall i :: 0 <= i < |rows| ==> "F4" !in rows[i]
    ensures MissingChannel(rows, Channels) == Some("F4")
  {
    assert Channels[0] == "Pz" && Channels[1] == "F4";
    assert Channels[1..][0] == "F4";
  }

  // ---------------------------------------------------------------------------
  // The directory and the review window as objects

  /** The screened directory; `os.rename` updates it in place. */
  class Folder {
    var files: Files

    constructor (contents: Files)
      ensures files == contents
    {
      files := contents;
    }

    /** `os.rename(src, dst)`: `src` must exist; an existing `dst` is replaced. */
    method Rename(src: string, dst: string)
      requires src in files
      modifies this
      ensures files == Renamed(old(files), src, dst)
    {
      var contents := files[src];
      files := files - {src};
      files := files[dst := contents];
    }
  }

  /** `remove_bad_tag`: rename away a leading `[Bad]` and return the path the file now has. */
  method RemoveBadTag(folder: Folder, path: Path) returns (newPath: Path)
    requires path.name in folder.files
    modifies folder
    ensures newPath == UntagPath(path)
    ensures folder.files == Untagged(old(folder.files), path.name)
  {
    if StartsWith(path.name, BadTag) {
      var newName := path.name[5..];
      newPath := Path(path.dir, newName);
      folder.Rename(path.name, newName);
    } else {
      newPath := path;
    }
  }

  /** The figure of one file and the state its button callbacks share. */
  class ReviewWindow {
    /** `file_path`, which `preserve_file` reassigns. */
    var path: Path
    /** The figure is still shown. */
    var open: bool
    /** `sys.exit` was called. */
    var exiting: bool

    constructor (p: Path)
      ensures path == p && open && !exiting
    {
      path := p;
      open := true;
      exiting := false;
    }

    /** `preserve_file`: remove the tag, remember the new path, close the figure. */
    method PreserveFile(folder: Folder)
      requires path.name in folder.files
      modifies this, folder
      ensures path == UntagPath(old(path))
      ensures folder.files == Untagged(old(folder.files), old(path).name)
      ensures !open && exiting == old(exiting)
    {
      path := RemoveBadTag(folder, path);
      open := false;
    }

    /** `tag_as_bad`: rename to the tagged name unless already tagged, close the figure; `file_path` is not reassigned. */
    method TagAsBad(folder: Folder)
      requires path.name in folder.files
      modifies this, folder
      ensures path == old(path)
      ensures folder.files == Tagged(old(folder.files), path.name)
      ensures !open && exiting == old(exiting)
    {
      if !StartsWith(path.name, BadTag) {
        var newPath := TagPath(path);
        folder.Rename(path.name, newPath.name);
      }
      open := false;
    }

    /** `exit_app`: close every figure and leave the program. */
    method ExitApp()
      modifies this
      ensures path == old(path) && !open && exiting
    {
      open := false;
      exiting := true;
    }

    /** The figure closed without a button: nothing happens. */
    method CloseWindow()
      modifies this
      ensures path == old(path) && !open && exiting == old(exiting)
    {
      open := false;
    }
  }

  /** `plot_eeg_data` on the file `name` of the directory `dir`. */
  method PlotEegData(folder: Folder, dir: string, name: string, decision: Decision) returns (step: Step)
    modifies folder
    ensures Review(folder.files, step) == ReviewFile(old(folder.files), name, decision)
  {
    if name !in folder.files {
      return Missing;
    }
    var df := ReadSession(folder.files[name]);
    if df == [] {
      return Skipped;
    }
    var missing := FirstMissingChannel(df);
    if missing.Some? {
      return Unplottable(missing.value);
    }
    var window := new ReviewWindow(Path(dir, name));
    match decision {
      case Preserve => window.PreserveFile(folder);
      case TagBad => window.TagAsBad(folder);
      case Exit => window.ExitApp();
      case Close => window.CloseWindow();
    }
    step := Decided(decision);
  }

  /** The loop of `main` over the listing of `dir`, taken once before the loop. */
  method ScreenListing(folder: Folder, dir: string, listing: seq<string>, decisions: seq<Decision>)
    returns (visited: seq<(string, Step)>, status: Status)
    requires |decisions| == |listing|
    modifies folder
    ensures Outcome(folder.files, visited, status) == Run(old(folder.files), listing, decisions)
  {
    visited := [];
    var i := 0;
    while i < |listing|
      invariant 0 <= i <= |listing|
      invariant Run(old(folder.files), listing, decisions)
        == Then(Outcome(folder.files, visited, Finished), Run(folder.files, listing[i..], decisions[i..]))
    {
      var filename := listing[i];
      assert listing[i..][0] == filename && listing[i..][1..] == listing[i + 1..];
      assert decisions[i..][0] == decisions[i] && decisions[i..][1..] == decisions[i + 1..];
      if EndsWith(filename, TxtSuffix) {
        var step := PlotEegData(folder, dir, filename, decisions[i]);
        visited := visited + [(filename, step)];
        if Stops(step) {
          return visited, StopStatus(step);
        }
      }
      i := i + 1;
    }
    status := Finished;
  }

  /** `main`: no directory chosen means nothing happens; otherwise the listing is screened. */
  method Screen(folder: Folder?, dir: string, listing: seq<string>, decisions: seq<Decision>)
    returns (visited: seq<(string, Step)>, status: Status)
    requires |decisions| == |listing|
    modifies folder
    ensures folder == null ==> visited == [] && status == Finished
    ensures folder != null ==> Outcome(folder.files, visited, status) == Run(old(folder.files), listing, decisions)
  {
    if folder == null {
      return [], Finished;
    }
    visited, status := ScreenListing(folder, dir, listing, decisions);
  }
}

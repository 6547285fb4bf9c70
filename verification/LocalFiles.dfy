/** The asset store on the local disk: one rename within a device, two effects across devices. */
module LocalFiles {
  import opened Options
  import opened Journal
  import opened JournalStore

  /** How many bytes a read at a position returns: at least one, at most those asked for and left. */
  ghost predicate Reads(read: nat -> nat, size: nat, buffer: nat) {
    forall position :: 0 <= position < size ==> 0 < read(position) <= buffer && position + read(position) <= size
  }

  /**
   * Compares two files piece by piece: never calls different ones the same, and finds out exactly when both are read
   * alike.
   */
  method SameContents(left: Bytes, right: Bytes, buffer: nat, leftRead: nat -> nat, rightRead: nat -> nat)
      returns (same: bool)
    requires Reads(leftRead, |left|, buffer) && Reads(rightRead, |right|, buffer)
    ensures same ==> left == right
    ensures (forall p: nat :: leftRead(p) == rightRead(p)) ==> same == (left == right)
  {
    if |left| != |right| {
      return false;
    }
    var position := 0;
    while position < |left|
      invariant position <= |left| && left[..position] == right[..position]
      decreases |left| - position
    {
      var n, m := leftRead(position), rightRead(position);
      if n != m || left[position..position + n] != right[position..position + m] {
        return false;
      }
      position := position + n;
    }
    assert left[..|left|] == left && right[..|right|] == right;
    same := true;
  }

  class LocalStore {
    var files: Store
    var staged: Store

    /** Publishes a staged part; `first` and `second` say what becomes of its effects. */
    method FinalizeUpload(
        part: Path, dest: Path, sameDevice: bool, first: Signal, second: Signal) returns (out: Outcome)
      modifies this
      ensures forall p :: p != dest || p in old(files) ==> Look(files, p) == Look(old(files), p)
      ensures forall p :: p != part ==> Look(staged, p) == Look(old(staged), p)
      ensures Look(staged, part) == Look(old(staged), part) || part !in staged
      ensures Look(files, dest) == Look(old(files), dest) || (part in old(staged)
          && Look(files, dest) == Look(old(staged), part))
      ensures part in old(staged) ==> part in staged || Look(files, dest) == Look(old(staged), part)
      ensures part in old(staged) && out == Completed ==>
          Look(files, dest) == Some(old(staged)[part]) && part !in staged
      ensures part in old(staged) && dest in old(files) && old(files)[dest] != old(staged)[part] ==>
                out == Threw && files == old(files) && staged == old(staged)
      ensures first.Proceeds? && second.Proceeds? && part in old(staged) ==>
                dest !in old(files) || old(files)[dest] == old(staged)[part] ==> out == Completed
      ensures part !in old(staged) ==>
          files == old(files) && staged == old(staged) && out == if dest in files then Completed else Missing
    {
      if part !in staged {
        return if dest in files then Completed else Missing;
      }
      if dest in files {
        if files[dest] != staged[part] {
          return Threw;
        }
        if first.Proceeds? {
          staged := staged - {part};
        }
        return Result(first);
      }
      if !first.Proceeds? {
        return Result(first);
      }
      files := files[dest := staged[part]];
      if sameDevice {
        staged := staged - {part};
        return Completed;
      }
      if second.Proceeds? {
        staged := staged - {part};
      }
      out := Result(second);
    }

    /**
     * However often publishing is cut short, its bytes are at the part or at the destination, and end up there once.
     */
    method FinalizeThroughCrashes(part: Path, dest: Path, devices: seq<bool>, signals: seq<(Signal, Signal)>)
      requires part in staged && dest !in files && |devices| == |signals|
      modifies this
      ensures Look(files, dest) == Some(old(staged)[part]) && part !in staged
      ensures forall p :: p != dest ==> Look(files, p) == Look(old(files), p)
    {
      var out;
      for n := 0 to |signals|
        invariant part in staged ==> Look(staged, part) == Look(old(staged), part)
        invariant dest in files ==> Look(files, dest) == Look(old(staged), part)
        invariant part in staged || dest in files
        invariant forall p :: p != dest ==> Look(files, p) == Look(old(files), p)
      {
        out := Retry(part, dest, devices[n], signals[n].0, signals[n].1);
      }
      out := Retry(part, dest, true, Proceeds, Proceeds);
    }

    /** One more try: whatever is staged or published so far is only ever this upload's. */
    method Retry(part: Path, dest: Path, sameDevice: bool, first: Signal, second: Signal) returns (out: Outcome)
      requires part in staged || dest in files
      requires part in staged && dest in files ==> files[dest] == staged[part]
      modifies this
      ensures part in staged || dest in files
      ensures part in staged ==> Look(staged, part) == Look(old(staged), part)
      ensures dest in files ==>
          Look(files, dest) == if dest in old(files) then Look(old(files), dest) else Look(old(staged), part)
      ensures forall p :: p != dest ==> Look(files, p) == Look(old(files), p)
      ensures first.Proceeds? && second.Proceeds? ==> part !in staged && dest in files
    {
      out := FinalizeUpload(part, dest, sameDevice, first, second);
    }

    /** A single rename; a destination that is taken is refused, whatever it holds. */
    method EnsureMoved(source: Path, destination: Path, signal: Signal) returns (out: Outcome)
      modifies this`files
      ensures source == destination || (source !in old(files) && destination in old(files)) ==>
          out == Completed && files == old(files)
      ensures source != destination && source !in old(files) && destination !in old(files) ==>
          out == Missing && files == old(files)
      ensures source != destination && source in old(files) && destination in old(files) ==>
          out == Threw && files == old(files)
      ensures source != destination && source in old(files) && destination !in old(files) ==>
                && out == Result(signal)
                && files == if signal.Proceeds? then old(files)[destination := old(files)[source]] - {source}
                    else old(files)
    {
      if source == destination {
        return Completed;
      }
      if source !in files {
        return if destination in files then Completed else Missing;
      }
      if destination in files {
        return Threw;
      }
      if signal.Proceeds? {
        files := files[destination := files[source]] - {source};
      }
      out := Result(signal);
    }
  }

  function Result(signal: Signal): Outcome {
    match signal
    case Proceeds => Completed
    case Fails => Threw
    case _ => Crashed
  }
}

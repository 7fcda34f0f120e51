/**
  The tracker's state and its handlers: the three partial counters of today,
  the newest-first history, the star/crown counters kept incrementally, and a
  single-slot undo buffer holding the last deleted record. Each handler is one
  atomic step over the current state.
*/
module Tracker {
  import opened Levels
  import opened History
  import opened Rewards
  import Counter

  datatype Option<T> = None | Some(value: T)

  /** The three partial counters of a day: morning, midday, evening. */
  datatype Slot = Sabah | Ogle | Aksam

  class DayTracker {
    /** Nothing in the tracker edits the settings after they are loaded. */
    const settings: Settings

    var sabah: int
    var ogle: int
    var aksam: int
    var history: seq<Record>
    var star: int
    var crown: int
    var deletedItem: Option<Record>

    /** Today's total minutes: the three partial counters added up. */
    function Total(): (t: int)
      reads this
      ensures Counters() == (0, 0, 0) ==> t == 0
      ensures sabah >= 0 && ogle >= 0 && aksam >= 0 ==> t >= sabah && t >= ogle && t >= aksam
    {
      sabah + ogle + aksam
    }

    /**
      The level shown for today. It is legendary exactly when the total is
      within the efsane cut-off, so a freshly emptied day shows as legendary.
    */
    function CurrentLevel(): (r: LevelVerdict)
      reads this
      ensures r.key == Efsane <==> Total() * 100 <= settings.limit * settings.levels.efsane.pct
      ensures Counters() == (0, 0, 0) && settings.limit >= 0 && settings.levels.efsane.pct >= 0 ==> r.key == Efsane
    {
      GetLevel(Total(), settings)
    }

    function Counters(): (int, int, int)
      reads this
    {
      (sabah, ogle, aksam)
    }

    function RewardPair(): Reward
      reads this
    {
      Reward(star, crown)
    }

    /**
      The invariant the incremental reward counters are meant to keep: the
      target is positive, ids are unique, the record held for undo is not in
      the history, and (star, crown) is (L mod T, L div T) for the L legendary
      records in the history.
    */
    ghost predicate Valid()
      reads this
    {
      settings.weeklyStarTarget > 0 &&
      IdsUnique(history) &&
      (deletedItem.Some? ==> deletedItem.value.id !in Ids(history)) &&
      RewardPair() == Derived(Efsanes(history), settings.weeklyStarTarget)
    }

    /**
      The counters' own invariant: the step is not negative and no partial
      counter is below zero. Minus floors at zero and plus adds a step that is
      not negative, so every handler keeps it.
    */
    ghost predicate CountersInRange()
      reads this
    {
      settings.step >= 0 && sabah >= 0 && ogle >= 0 && aksam >= 0
    }

    /**
      Start-up: history, settings and the reward pair come from storage, each
      absent one falling back to its default (empty history, the default
      settings, zero stars and crowns). The partial counters start at zero.
    */
    constructor Load(storedHistory: Option<seq<Record>>, storedSettings: Option<Settings>,
                     storedStar: Option<int>, storedCrown: Option<int>)
      ensures history == (if storedHistory.Some? then storedHistory.value else [])
      ensures settings == (if storedSettings.Some? then storedSettings.value else DefaultSettings)
      ensures star == (if storedStar.Some? then storedStar.value else 0)
      ensures crown == (if storedCrown.Some? then storedCrown.value else 0)
      ensures Counters() == (0, 0, 0) && deletedItem == None
      ensures (storedHistory.None? && storedStar.None? && storedCrown.None? &&
               settings.weeklyStarTarget > 0) ==> Valid()
      ensures settings.step >= 0 ==> CountersInRange()
      ensures storedSettings.None? ==> CountersInRange()
    {
      history := if storedHistory.Some? then storedHistory.value else [];
      settings := if storedSettings.Some? then storedSettings.value else DefaultSettings;
      star := if storedStar.Some? then storedStar.value else 0;
      crown := if storedCrown.Some? then storedCrown.value else 0;
      sabah, ogle, aksam := 0, 0, 0;
      deletedItem := None;
    }

    /** The minus button of one counter. */
    method Decrease(slot: Slot)
      modifies this
      ensures sabah == (if slot == Sabah then Counter.Minus(old(sabah), settings.step) else old(sabah))
      ensures ogle == (if slot == Ogle then Counter.Minus(old(ogle), settings.step) else old(ogle))
      ensures aksam == (if slot == Aksam then Counter.Minus(old(aksam), settings.step) else old(aksam))
      ensures history == old(history) && RewardPair() == old(RewardPair()) && deletedItem == old(deletedItem)
      ensures old(Valid()) ==> Valid()
      ensures old(CountersInRange()) ==> CountersInRange()
    {
      match slot
      case Sabah => sabah := Counter.Minus(sabah, settings.step);
      case Ogle => ogle := Counter.Minus(ogle, settings.step);
      case Aksam => aksam := Counter.Minus(aksam, settings.step);
    }

    /** The plus button of one counter. */
    method Increase(slot: Slot)
      modifies this
      ensures sabah == (if slot == Sabah then Counter.Plus(old(sabah), settings.step) else old(sabah))
      ensures ogle == (if slot == Ogle then Counter.Plus(old(ogle), settings.step) else old(ogle))
      ensures aksam == (if slot == Aksam then Counter.Plus(old(aksam), settings.step) else old(aksam))
      ensures history == old(history) && RewardPair() == old(RewardPair()) && deletedItem == old(deletedItem)
      ensures old(Valid()) ==> Valid()
      ensures old(CountersInRange()) ==> CountersInRange()
    {
      match slot
      case Sabah => sabah := Counter.Plus(sabah, settings.step);
      case Ogle => ogle := Counter.Plus(ogle, settings.step);
      case Aksam => aksam := Counter.Plus(aksam, settings.step);
    }

    /**
      Closing the day: the total is classified, a frozen record with the given
      id and date goes to the head of the history, a legendary day moves the
      reward pair one Forward step, and the three counters are zeroed.
      A fresh id keeps the invariant.
    */
    method CompleteDay(id: int, date: string)
      modifies this
      ensures var lvl := GetLevel(old(Total()), settings);
        history == [Record(id, date, old(Total()), lvl.name, lvl.key, lvl.style.emoji)] + old(history)
      ensures history[0].key == old(CurrentLevel()).key
      ensures RewardPair() == if history[0].key == Efsane
        then Forward(old(RewardPair()), settings.weeklyStarTarget) else old(RewardPair())
      ensures Counters() == (0, 0, 0) && deletedItem == old(deletedItem)
      ensures (old(Valid()) && id !in old(Ids(history)) &&
               (old(deletedItem).Some? ==> old(deletedItem).value.id != id)) ==> Valid()
      ensures old(CountersInRange()) ==> history[0].total >= 0 && CountersInRange()
    {
      ghost var h, L := history, Efsanes(history);
      var total := Total();
      var recordLevel := GetLevel(total, settings);
      var record := Record(id, date, total, recordLevel.name, recordLevel.key, recordLevel.style.emoji);
      history := [record] + history;
      if record.key == Efsane {
        if star + 1 >= settings.weeklyStarTarget {
          crown := crown + 1;
          star := 0;
        } else {
          star := star + 1;
        }
      }
      sabah, ogle, aksam := 0, 0, 0;

      assert history[1..] == h;
      if record.key == Efsane && settings.weeklyStarTarget > 0 {
        ForwardDerived(L, settings.weeklyStarTarget);
      }
    }

    /**
      Deleting a record: every record with its id leaves the history, the
      record replaces whatever the undo buffer held, and a legendary record
      moves the reward pair one Backward step. Deleting a record of the
      history keeps the invariant.
    */
    method DeleteRecord(item: Record)
      modifies this
      ensures history == Without(old(history), item.id)
      ensures deletedItem == Some(item)
      ensures RewardPair() == if item.key == Efsane
        then Backward(old(RewardPair()), settings.weeklyStarTarget) else old(RewardPair())
      ensures Counters() == old(Counters())
      ensures old(Valid()) && item in old(history) ==> Valid()
      ensures old(CountersInRange()) ==> CountersInRange()
    {
      ghost var h, valid := history, Valid();
      history := Without(history, item.id);
      deletedItem := Some(item);
      if item.key == Efsane {
        if star > 0 {
          star := star - 1;
        } else if crown > 0 {
          crown := crown - 1;
          star := settings.weeklyStarTarget - 1;
        } else {
          star := 0;
        }
      }

      if valid && item in h {
        ghost var k :| 0 <= k < |h| && h[k] == item;
        EfsanesWithout(h, k);
        WithoutUnique(h, item.id);
        WithoutIds(h, item.id);
        if item.key == Efsane {
          BackwardDerived(Efsanes(history), settings.weeklyStarTarget);
        }
      }
    }

    /**
      Undo: with nothing in the buffer nothing changes; otherwise the held
      record goes back to the head of the history, a legendary record moves
      the reward pair one Forward step, and the buffer is emptied.
    */
    method UndoDelete()
      modifies this
      ensures old(deletedItem).None? ==>
        history == old(history) && RewardPair() == old(RewardPair()) && deletedItem == None
      ensures old(deletedItem).Some? ==>
        history == [old(deletedItem).value] + old(history) && deletedItem == None &&
        RewardPair() == if old(deletedItem).value.key == Efsane
          then Forward(old(RewardPair()), settings.weeklyStarTarget) else old(RewardPair())
      ensures Counters() == old(Counters())
      ensures old(Valid()) ==> Valid()
      ensures old(CountersInRange()) ==> CountersInRange()
    {
      if deletedItem.None? {
        return;
      }
      var item := deletedItem.value;
      ghost var h, L := history, Efsanes(history);
      history := [item] + history;
      if item.key == Efsane {
        if star + 1 >= settings.weeklyStarTarget {
          crown := crown + 1;
          star := 0;
        } else {
          star := star + 1;
        }
      }
      deletedItem := None;

      assert history[1..] == h;
      if item.key == Efsane && settings.weeklyStarTarget > 0 {
        ForwardDerived(L, settings.weeklyStarTarget);
      }
    }

    /** The end of the undo window: the held record becomes unrecoverable. */
    method ExpireUndo()
      modifies this
      ensures deletedItem == None
      ensures history == old(history) && RewardPair() == old(RewardPair()) && Counters() == old(Counters())
      ensures old(Valid()) ==> Valid()
      ensures old(CountersInRange()) ==> CountersInRange()
    {
      deletedItem := None;
    }

    /**
      Deleting a record of the history and undoing at once restores the
      reward pair exactly and gives back the same records, the restored one
      at the head.
    */
    method DeleteThenUndo(item: Record)
      requires Valid() && item in history
      modifies this
      ensures Valid()
      ensures RewardPair() == old(RewardPair())
      ensures multiset(history) == multiset(old(history)) && history[0] == item
      ensures Counters() == old(Counters()) && deletedItem == None
    {
      ghost var h, r := history, RewardPair();
      ghost var k :| 0 <= k < |h| && h[k] == item;
      DeleteRecord(item);
      WithoutAt(h, k);
      UndoDelete();
      RestoreIsPermutation(h, k);
      if item.key == Efsane {
        EfsanesWithout(h, k);
        ForwardBackward(r, settings.weeklyStarTarget);
      }
    }
  }
}

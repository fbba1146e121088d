/** Pages of materialized read models: the skip and take of a read, turned into a page and what to drop from it. */
module Paging {
  const MAX_SAFE_INTEGER: nat := 9_007_199_254_740_991

  datatype PageParams = PageParams(page: nat, pageSize: nat, skipWithinPage: int)

  /** The remainder with the sign of the dividend. */
  function Remainder(a: int, b: int): int
    requires b > 0
  {
    if a >= 0 then a % b else -((-a) % b)
  }

  function ToPageParams(skip: int, take: int): PageParams {
    if take <= 0 then PageParams(0, MAX_SAFE_INTEGER, 0)
    else PageParams(if skip > 0 then skip / take else 0, take, Remainder(skip, take))
  }

  function Min(a: int, b: int): int {
    if a <= b then a else b
  }

  /** The instances of a list from one place to another, as far as the list goes. */
  function Between<T>(all: seq<T>, from: nat, to: nat): seq<T>
    requires from <= to
  {
    all[Min(from, |all|)..Min(to, |all|)]
  }

  /** The instances of a page, as the server keeps them. */
  function Page<T>(all: seq<T>, page: nat, pageSize: nat): seq<T> {
    Between(all, page * pageSize, page * pageSize + pageSize)
  }

  /** `slice`: the instances from a place on, none when it lies past the end. */
  function Slice<T>(instances: seq<T>, from: nat): seq<T> {
    if from <= |instances| then instances[from..] else []
  }

  /** Where the page that holds `skip` ends. */
  function PageEnd(skip: nat, take: nat): nat
    requires take > 0
  {
    (skip / take + 1) * take
  }

  /**
   * What a read gives: the instances from `skip` to the end of the page that holds it; all of them when `take` is not
   * positive.
   */
  function Reading<T>(all: seq<T>, skip: int, take: int): seq<T> {
    if take <= 0 then all[..Min(|all|, MAX_SAFE_INTEGER)]
    else if skip <= 0 then all[..Min(|all|, take)]
    else
      SkipBeforeEnd(skip, take);
      Between(all, skip, PageEnd(skip, take))
  }

  /** Without a positive `take` one page holds as many instances as an exact number goes, and nothing is dropped. */
  lemma {:induction false} PagesByTake(skip: int, take: int)
    ensures take <= 0 ==> ToPageParams(skip, take) == PageParams(0, 9007199254740991, 0)
    ensures take > 0 && skip >= 0 ==> ToPageParams(skip, take) == PageParams(skip / take, take, skip % take)
    ensures take > 0 && skip < 0 ==>
              ToPageParams(skip, take).page == 0 && ToPageParams(skip, take).pageSize == take
              && ToPageParams(skip, take).skipWithinPage <= 0
  {
  }

  lemma {:induction false} SkipBeforeEnd(skip: nat, take: nat)
    requires take > 0
    ensures skip < PageEnd(skip, take) <= skip + take
    ensures PageEnd(skip, take) == skip + take <==> skip % take == 0
    ensures skip / take * take + skip % take == skip && PageEnd(skip, take) == skip / take * take + take
  {
  }

  lemma {:induction false} DropFromPage<T>(all: seq<T>, start: nat, drop: nat, take: nat)
    requires drop < take
    ensures Between(all, start + drop, start + take) == Slice(Between(all, start, start + take), drop)
  {
  }

  /** Dropping what comes before `skip` from its page leaves the reading. */
  lemma {:induction false} PageOf<T>(all: seq<T>, skip: nat, take: nat)
    requires take > 0
    ensures var params := ToPageParams(skip, take);
            && params.skipWithinPage >= 0
            && Reading(all, skip, take) == Slice(Page(all, params.page, params.pageSize), params.skipWithinPage)
  {
    SkipBeforeEnd(skip, take);
    DropFromPage(all, skip / take * take, skip % take, take);
  }

  method GetInstances<T>(all: seq<T>, skip: int, take: int) returns (instances: seq<T>)
    ensures instances == Reading(all, skip, take)
  {
    var params := ToPageParams(skip, take);
    instances := Page(all, params.page, params.pageSize);
    if take > 0 && skip >= 0 {
      PageOf(all, skip, take);
    }
    if params.skipWithinPage > 0 {
      instances := Slice(instances, params.skipWithinPage);
    }
  }

  /**
   * A read gives the `take` instances after `skip` exactly when `skip` starts a page or the list ends with the page at
   * the latest.
   */
  lemma {:induction false} ReadsWhatWasAsked<T>(all: seq<T>, skip: nat, take: nat)
    requires take > 0
    ensures Reading(all, skip, take) == Between(all, skip, skip + take)
       <==> skip % take == 0 || |all| <= PageEnd(skip, take)
  {
    SkipBeforeEnd(skip, take);
    hide PageEnd;
    EqualWhenAsLong(all, skip, PageEnd(skip, take), skip + take);
    assert Reading(all, skip, take) == Between(all, skip, PageEnd(skip, take)) by {
      FirstPage(take);
    }
  }

  lemma {:induction false} FirstPage(take: nat)
    requires take > 0
    ensures PageEnd(0, take) == take
  {
  }

  lemma {:induction false} EqualWhenAsLong<T>(all: seq<T>, from: nat, to: nat, further: nat)
    requires from < to <= further
    ensures Between(all, from, to) == Between(all, from, further) <==> to == further || |all| <= to
  {
  }

  /** Advancing by what each read returns, until a read returns nothing. */
  function Walk<T>(all: seq<T>, skip: nat, take: nat): seq<T>
    requires take > 0
    decreases if skip < |all| then |all| - skip else 0
  {
    SkipBeforeEnd(skip, take);
    var read := Reading(all, skip, take);
    if read == [] then [] else read + Walk(all, skip + |read|, take)
  }

  /** The walk reassembles the rest of the list, with nothing repeated and nothing missed. */
  lemma {:induction false} WalkReassembles<T>(all: seq<T>, skip: nat, take: nat)
    requires take > 0
    ensures Walk(all, skip, take) == all[Min(skip, |all|)..]
    decreases if skip < |all| then |all| - skip else 0
  {
    SkipBeforeEnd(skip, take);
    FirstPage(take);
    hide PageEnd;
    var read := Reading(all, skip, take);
    if read != [] {
      WalkReassembles(all, skip + |read|, take);
      assert all[skip..] == all[skip..skip + |read|] + all[skip + |read|..];
    }
  }
}

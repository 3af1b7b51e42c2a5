/**
 * `isAvailable`: the credit-card method is offered to a quote when the base payment
 * method allows it and, if the customer-group restriction is switched on, the quote's
 * customer group is one of the comma-separated ids in the `customer_groups` setting.
 */
module Availability {
  import opened Php

  /** The part of a checkout quote the rule looks at. */
  datatype Quote = Quote(customerGroupId: nat)

  /**
   * PHP 5 and 7 loose comparison of the integer group id with one entry of the setting:
   * the entry is read as a number, so a decimal entry compares by its value and an
   * empty or non-numeric entry compares as 0.
   */
  predicate EntryMatches(entry: string, groupId: nat) {
    IntCast(entry) == groupId
  }

  /**
   * `in_array($groupId, explode(',', $customerGroups))`. An empty setting still explodes
   * into one empty entry, which the guest group 0 matches.
   */
  predicate GroupListed(groupId: nat, customerGroups: string): (r: bool)
    ensures customerGroups == "" ==> (r <==> groupId == 0)
  {
    var entries := Explode(',', customerGroups);
    exists k :: 0 <= k < |entries| && EntryMatches(entries[k], groupId)
  }

  /**
   * The answer of `isAvailable` given the parent method's answer, the quote (None when
   * there is none), the restriction flag and the `customer_groups` setting.
   */
  function IsAvailable(parentAvailable: bool, quote: Option<Quote>, groupRestriction: bool, customerGroups: string): (r: bool)
    ensures !parentAvailable ==> !r
    ensures quote.None? || !groupRestriction ==> r == parentAvailable
    ensures quote.Some? && groupRestriction ==>
              (r <==> parentAvailable && GroupListed(quote.value.customerGroupId, customerGroups))
  {
    if quote.None? then parentAvailable
    else if !groupRestriction then parentAvailable
    else parentAvailable && GroupListed(quote.value.customerGroupId, customerGroups)
  }

  /** The setting as the admin form saves a multi-select of group ids: decimal ids joined by commas. */
  function GroupsSetting(groups: seq<nat>): string {
    Implode(",", seq(|groups|, k requires 0 <= k < |groups| => Digits(groups[k])))
  }

  /**
   * With the restriction on and the setting saved from a non-empty list of ids, the method
   * is available exactly when the parent says so and the quote's group is in that list.
   */
  lemma {:induction false} RestrictedToListedGroups(parentAvailable: bool, groupId: nat, groups: seq<nat>)
    requires |groups| >= 1
    ensures IsAvailable(parentAvailable, Some(Quote(groupId)), true, GroupsSetting(groups))
            <==> parentAvailable && groupId in groups
  {
    var entries := seq(|groups|, k requires 0 <= k < |groups| => Digits(groups[k]));
    forall k | 0 <= k < |entries| ensures ',' !in entries[k] {
      assert AllDigits(entries[k]);
    }
    ExplodeImplode(',', entries);
    assert Explode(',', GroupsSetting(groups)) == entries;
    if groupId in groups {
      var k :| 0 <= k < |groups| && groups[k] == groupId;
      DigitsRoundTrip(groups[k]);
      assert EntryMatches(entries[k], groupId);
    }
    if GroupListed(groupId, GroupsSetting(groups)) {
      var k :| 0 <= k < |entries| && EntryMatches(entries[k], groupId);
      DigitsRoundTrip(groups[k]);
      assert groups[k] == groupId;
    }
  }

  /**
   * With the restriction on and nothing saved in the setting, only a guest quote
   * (group 0) is served, and only when the parent method allows it.
   */
  lemma EmptySettingServesOnlyGuests(parentAvailable: bool, groupId: nat)
    ensures IsAvailable(parentAvailable, Some(Quote(groupId)), true, "") <==> parentAvailable && groupId == 0
  {
  }
}

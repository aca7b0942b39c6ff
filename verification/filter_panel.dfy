/**
 * The two filter forms of the dashboard as state machines: the collapsible filter panel of the
 * home page and the always-open form of the links page. Each keeps four text inputs and
 * navigates by replacing the URL; `navigations` records every `router.replace` in order.
 */
module FilterForms {
  import Text
  import opened SearchParams
  import opened LinkFilters

  /** Reapplying the filters a form was filled from gives the same filters back, except that
      repeated tags collapse to their first occurrence. */
  lemma {:induction false} ReapplyKeepsFilters(a: ActiveFilters)
    requires MinLimit <= a.limit <= MaxLimit
    requires forall i :: 0 <= i < |a.tags| ==> a.tags[i] != "" && Text.FreeOf(a.tags[i], TagSeparators)
    ensures DeriveActive(FilterParams(a.limit, InputsOf(a))) == a.(tags := Dedupe(a.tags))
  {
    ApplyThenDerive(a.limit, InputsOf(a));
    ParseTagsOfJoined(a.tags);
  }

  /** `router.replace` to the address `applyFilters` builds. */
  method PushFilterRoute(navigations: seq<string>, base: string, limit: int, inputs: Inputs)
    returns (r: seq<string>)
    ensures r == navigations + [Route(base, FilterParams(limit, inputs))]
  {
    var route := FilterRoute(base, limit, inputs);
    r := navigations + [route];
  }

  /** The filter panel above the link list. `active` is the parent's prop; the inputs copy it
      when the component is created and again whenever the panel opens. */
  class FilterPanel {
    var active: ActiveFilters
    var isOpen: bool
    var inputs: Inputs
    var navigations: seq<string>

    constructor(active: ActiveFilters)
      ensures this.active == active && !isOpen && inputs == InputsOf(active) && navigations == []
    {
      this.active := active;
      isOpen := false;
      inputs := InputsOf(active);
      navigations := [];
    }

    /** The badges of the active filters. */
    function Badges(): (b: seq<Badge>)
      reads this
      ensures b == BadgesOf(active)
      ensures |b| >= |FieldBadges(active)|
    {
      BadgesOf(active)
    }

    /** `hasAnyActive`: whether any badge is shown. */
    predicate HasAnyActive()
      reads this
    {
      |BadgesOf(active)| > 0
    }

    /** A new `active` prop: the inputs keep what they hold until the panel is opened. */
    method Rerender(newActive: ActiveFilters)
      modifies this
      ensures active == newActive
      ensures isOpen == old(isOpen) && inputs == old(inputs) && navigations == old(navigations)
    {
      active := newActive;
    }

    /** `openPanel`: the inputs are refilled from the active filters. */
    method OpenPanel()
      modifies this
      ensures isOpen && inputs == InputsOf(active)
      ensures active == old(active) && navigations == old(navigations)
    {
      inputs := InputsOf(active);
      isOpen := true;
    }

    /** `closePanel`: the inputs are kept. */
    method ClosePanel()
      modifies this
      ensures !isOpen
      ensures active == old(active) && inputs == old(inputs) && navigations == old(navigations)
    {
      isOpen := false;
    }

    /** The toggle button: closes an open panel, opens a closed one. */
    method Toggle()
      modifies this
      ensures isOpen == !old(isOpen)
      ensures !old(isOpen) ==> inputs == InputsOf(active)
      ensures old(isOpen) ==> inputs == old(inputs)
      ensures active == old(active) && navigations == old(navigations)
    {
      if isOpen {
        ClosePanel();
      } else {
        OpenPanel();
      }
    }

    /** Typing into the form. */
    method Edit(newInputs: Inputs)
      modifies this
      ensures inputs == newInputs
      ensures active == old(active) && isOpen == old(isOpen) && navigations == old(navigations)
    {
      inputs := newInputs;
    }

    /** `applyFilters`: navigates to the home page with the query built from the inputs and
      the active limit. */
    method ApplyFilters()
      modifies this
      ensures navigations == old(navigations) + [Route("/", FilterParams(active.limit, inputs))]
      ensures unchanged(`active, `isOpen, `inputs)
    {
      navigations := PushFilterRoute(navigations, "/", active.limit, inputs);
    }

    /** `clearFilters`: empties the inputs and navigates to the bare home page. */
    method ClearFilters()
      modifies this
      ensures inputs == EmptyInputs && navigations == old(navigations) + ["/"]
      ensures active == old(active) && isOpen == old(isOpen)
    {
      inputs := EmptyInputs;
      navigations := navigations + ["/"];
    }
  }

  /** The links page. The active filters are the memo of the URL's query, so they are a
      function of `query`; the inputs are refilled from them every time the query changes. */
  class LinksPage {
    var query: Params
    var inputs: Inputs
    var navigations: seq<string>

    /** The memo `active`: the derivation of the current query. */
    function Active(): ActiveFilters
      reads this`query
    {
      DeriveActive(query)
    }

    /** What the link list receives: the limit is always present and in range. */
    function ListProps(): (p: LinkFilters.ListProps)
      reads this`query
      ensures p.limit.Some? && MinLimit <= p.limit.value <= MaxLimit
      ensures p == ListPropsOf(Active())
    {
      ListPropsOf(Active())
    }

    constructor(query: Params)
      ensures this.query == query
      ensures inputs == InputsOf(Active()) && navigations == []
    {
      this.query := query;
      navigations := [];
      new;
      inputs := InputsOf(Active());
    }

    /** A new query: the memo is recomputed and the effect refills the inputs. */
    method QueryChanged(newQuery: Params)
      modifies this
      ensures query == newQuery
      ensures inputs == InputsOf(Active()) && navigations == old(navigations)
    {
      query := newQuery;
      inputs := InputsOf(Active());
    }

    /** Typing into the form. */
    method Edit(newInputs: Inputs)
      modifies this
      ensures inputs == newInputs
      ensures query == old(query) && navigations == old(navigations)
    {
      inputs := newInputs;
    }

    /** `applyFilters`: navigates to the links page with the query built from the inputs and
        the active limit. */
    method ApplyFilters()
      modifies this
      ensures navigations == old(navigations) + [Route("/links", FilterParams(ActiveLimit(query), inputs))]
      ensures unchanged(`query, `inputs)
    {
      navigations := PushFilterRoute(navigations, "/links", ActiveLimit(query), inputs);
    }

    /** `clearFilters`: empties the inputs and navigates to the bare links page. */
    method ClearFilters()
      modifies this
      ensures inputs == EmptyInputs && navigations == old(navigations) + ["/links"]
      ensures query == old(query)
    {
      inputs := EmptyInputs;
      navigations := navigations + ["/links"];
    }
  }
}

/** The support-ticket page of `src/pages/admin/Tickets.jsx`: the two-key filter and
    the per-status counts, the badge lookups and status label, and the reply form
    whose success rewrites one ticket in the list and in the open detail view. */
module Tickets {
  import opened Wrappers
  import opened Js
  import opened Lists

  const All := "ALL"
  const DefaultReplyStatus := "IN_PROGRESS"
  const ReplyRequired := "Reply message is required"
  const LoadFailedFallback := "Failed to load tickets"
  const ReplyFailedFallback := "Failed to send reply"
  const ReplySent := "Reply sent successfully!"

  datatype Ticket = Ticket(id: int, title: string, description: string, status: string,
                           priority: string, adminReply: Option<string>, createdAt: string)

  /** The ticket passes both filters; `ALL` lets every value through. */
  predicate Matches(t: Ticket, status: string, priority: string) {
    (status == All || t.status == status) && (priority == All || t.priority == priority)
  }

  /** `filteredTickets`: the tickets that pass both filters, in list order. */
  function FilteredTickets(tickets: seq<Ticket>, status: string, priority: string): (r: seq<Ticket>)
    ensures forall i :: 0 <= i < |r| ==> r[i] in tickets && Matches(r[i], status, priority)
    ensures forall i :: 0 <= i < |tickets| && Matches(tickets[i], status, priority) ==> tickets[i] in r
  {
    Filter(tickets, t => Matches(t, status, priority))
  }

  /** With both filters at `ALL` the whole list is shown; filtering a joined list is
      joining the filtered parts, so the shown tickets keep their order. */
  lemma FilteredTicketsLaws(tickets: seq<Ticket>, more: seq<Ticket>, status: string, priority: string)
    ensures FilteredTickets(tickets, All, All) == tickets
    ensures FilteredTickets(tickets + more, status, priority)
         == FilteredTickets(tickets, status, priority) + FilteredTickets(more, status, priority)
  {
    FilterKeepsAll(tickets, t => Matches(t, All, All));
    FilterConcat(tickets, more, t => Matches(t, status, priority));
  }

  /** `getStatusCount(status)`. */
  function StatusCount(tickets: seq<Ticket>, status: string): (n: nat)
    ensures n <= |tickets|
    ensures status == All ==> n == |tickets|
  {
    if status == All then |tickets| else |Filter(tickets, (t: Ticket) => t.status == status)|
  }

  /** Each count is the length of the list the status filter alone would show. */
  lemma StatusCountIsFilteredLength(tickets: seq<Ticket>, status: string)
    ensures StatusCount(tickets, status) == |FilteredTickets(tickets, status, All)|
  {
    if status == All {
      FilterKeepsAll(tickets, t => Matches(t, All, All));
    } else {
      FilterAgrees(tickets, (t: Ticket) => t.status == status, t => Matches(t, status, All));
    }
  }

  /** The ticket with the reply applied. */
  function Replied(t: Ticket, reply: string, status: string): Ticket {
    t.(adminReply := Some(reply), status := status)
  }

  /** `tickets.map(...)` after a reply: the tickets with the replied id get the reply
      and the new status, every other ticket is kept as it was, in place. */
  function ReplaceTicket(tickets: seq<Ticket>, id: int, reply: string, status: string): (r: seq<Ticket>)
    ensures |r| == |tickets|
    ensures forall i :: 0 <= i < |r| ==> r[i].id == tickets[i].id
    ensures forall i :: 0 <= i < |r| && tickets[i].id != id ==> r[i] == tickets[i]
    ensures forall i :: 0 <= i < |r| && tickets[i].id == id ==> r[i] == Replied(tickets[i], reply, status)
  {
    seq(|tickets|, i requires 0 <= i < |tickets| => if tickets[i].id == id then Replied(tickets[i], reply, status) else tickets[i])
  }

  /** Sending the same reply twice leaves what sending it once left, and the open
      ticket, wherever it sits in the list, ends up equal to the list's copy. */
  lemma ReplaceTicketLaws(tickets: seq<Ticket>, selected: Ticket, reply: string, status: string)
    ensures ReplaceTicket(ReplaceTicket(tickets, selected.id, reply, status), selected.id, reply, status)
         == ReplaceTicket(tickets, selected.id, reply, status)
    ensures forall i :: 0 <= i < |tickets| && tickets[i] == selected ==>
      ReplaceTicket(tickets, selected.id, reply, status)[i] == Replied(selected, reply, status)
  {
  }

  const OpenBadge := "bg-blue-100 text-blue-800"
  const InProgressBadge := "bg-yellow-100 text-yellow-800"
  const ResolvedBadge := "bg-green-100 text-green-800"
  const HighBadge := "bg-red-100 text-red-800"
  const MediumBadge := "bg-orange-100 text-orange-800"
  const LowBadge := "bg-green-100 text-green-800"
  /** The grey badge: `CLOSED` has it, and so does every unknown value. */
  const GreyBadge := "bg-gray-100 text-gray-800"

  const StatusClasses: map<string, string> :=
    map["OPEN" := OpenBadge, "IN_PROGRESS" := InProgressBadge, "CLOSED" := GreyBadge, "RESOLVED" := ResolvedBadge]
  const PriorityClasses: map<string, string> :=
    map["HIGH" := HighBadge, "MEDIUM" := MediumBadge, "LOW" := LowBadge]

  /** `classes[key] || grey`: every table entry is non-empty, so the default applies
      exactly to keys outside the table. */
  function Lookup(classes: map<string, string>, key: string): (r: string)
    ensures key in classes && classes[key] != "" ==> r == classes[key]
    ensures key !in classes ==> r == GreyBadge
  {
    if key in classes && classes[key] != "" then classes[key] else GreyBadge
  }

  /** `getStatusBadge`: grey exactly for `CLOSED` and the statuses the table lacks. */
  function StatusBadge(status: string): (r: string)
    ensures r == GreyBadge <==> status !in {"OPEN", "IN_PROGRESS", "RESOLVED"}
    ensures r in {OpenBadge, InProgressBadge, ResolvedBadge, GreyBadge}
    ensures status in StatusClasses ==> r == StatusClasses[status]
  {
    Lookup(StatusClasses, status)
  }

  /** `getPriorityBadge`: grey exactly for the priorities the table lacks. */
  function PriorityBadge(priority: string): (r: string)
    ensures r == GreyBadge <==> priority !in PriorityClasses
    ensures priority in PriorityClasses ==> r == PriorityClasses[priority]
  {
    Lookup(PriorityClasses, priority)
  }

  /** `status.replace('_', ' ')`: with a string pattern only the first `_` is
      replaced. */
  function StatusLabel(status: string): (r: string)
    ensures |r| == |status|
    ensures '_' !in status ==> r == status
    ensures forall i :: 0 <= i < |status| && (status[i] != '_' || '_' in status[..i]) ==> r[i] == status[i]
    ensures forall i :: 0 <= i < |status| && status[i] == '_' && '_' !in status[..i] ==> r[i] == ' '
  {
    if status == [] then []
    else if status[0] == '_' then [' '] + status[1..]
    else
      var rest := StatusLabel(status[1..]);
      assert forall i :: 1 <= i <= |status| ==> status[..i] == [status[0]] + status[1..][..i - 1];
      [status[0]] + rest
  }

  function Underscores(s: string): nat {
    if s == [] then 0 else (if s[0] == '_' then 1 else 0) + Underscores(s[1..])
  }

  /** The label has exactly one `_` fewer than the status when the status has any. */
  lemma {:induction false} StatusLabelDropsOne(status: string)
    ensures Underscores(StatusLabel(status)) == if '_' in status then Underscores(status) - 1 else Underscores(status)
  {
    if status != [] && status[0] != '_' {
      StatusLabelDropsOne(status[1..]);
      assert StatusLabel(status) == [status[0]] + StatusLabel(status[1..]);
      assert StatusLabel(status)[1..] == StatusLabel(status[1..]);
      assert '_' in status <==> '_' in status[1..];
    } else if status != [] {
      assert StatusLabel(status)[1..] == status[1..];
      UnderscoresAgree(status[1..]);
    }
  }

  lemma UnderscoresAgree(s: string)
    ensures '_' !in s <==> Underscores(s) == 0
  {
  }

  /** The replying call `replyToTicket(id, {adminReply, status})`. */
  datatype ReplyCall = ReplyCall(ticketId: int, adminReply: string, status: string)

  class TicketsPage {
    var tickets: seq<Ticket>
    var selectedTicket: Option<Ticket>
    var loading: bool
    var error: string
    var showModal: bool
    var filterStatus: string
    var filterPriority: string
    var showReplyForm: bool
    var replyText: string
    var replyStatus: string
    var replyLoading: bool
    var successMessage: string

    /** The page as first rendered, before its list is fetched. */
    constructor ()
      ensures tickets == [] && selectedTicket.None? && loading && error == "" && !showModal
      ensures filterStatus == All && filterPriority == All
      ensures !showReplyForm && replyText == "" && replyStatus == DefaultReplyStatus
      ensures !replyLoading && successMessage == ""
    {
      tickets := [];
      selectedTicket := None;
      loading := true;
      error := "";
      showModal := false;
      filterStatus, filterPriority := All, All;
      showReplyForm := false;
      replyText := "";
      replyStatus := DefaultReplyStatus;
      replyLoading := false;
      successMessage := "";
    }

    /** `fetchTickets`; `outcome` is the list the call returned or what it threw.
      The half-second minimum wait beside the call does not change the outcome. */
    method FetchTickets(outcome: Result<seq<Ticket>, Thrown>)
      modifies this
      ensures outcome.Success? ==> tickets == outcome.value && error == ""
      ensures outcome.Failure? ==> tickets == old(tickets) && error == MessageOr(outcome.error, LoadFailedFallback)
      ensures !loading
      ensures selectedTicket == old(selectedTicket) && showModal == old(showModal) && showReplyForm == old(showReplyForm)
      ensures replyText == old(replyText) && replyStatus == old(replyStatus) && successMessage == old(successMessage)
      ensures filterStatus == old(filterStatus) && filterPriority == old(filterPriority) && replyLoading == old(replyLoading)
    {
      loading := true;
      error := "";
      match outcome {
        case Success(data) =>
          tickets := data;
        case Failure(err) =>
          error := MessageOr(err, LoadFailedFallback);
      }
      loading := false;
    }

    /** The rows the table shows. */
    function Shown(): (r: seq<Ticket>)
      reads this
      ensures forall i :: 0 <= i < |r| ==> r[i] in tickets && Matches(r[i], filterStatus, filterPriority)
      ensures forall i :: 0 <= i < |tickets| && Matches(tickets[i], filterStatus, filterPriority) ==> tickets[i] in r
    {
      FilteredTickets(tickets, filterStatus, filterPriority)
    }

    /** `handleViewTicket`. */
    method HandleViewTicket(ticket: Ticket)
      modifies this
      ensures selectedTicket == Some(ticket) && showModal
      ensures tickets == old(tickets) && error == old(error) && showReplyForm == old(showReplyForm)
      ensures replyText == old(replyText) && replyStatus == old(replyStatus) && successMessage == old(successMessage)
      ensures filterStatus == old(filterStatus) && filterPriority == old(filterPriority) && replyLoading == old(replyLoading)
      ensures loading == old(loading)
    {
      selectedTicket := Some(ticket);
      showModal := true;
    }

    /** `handleCloseModal`: closes the view and resets the whole reply form. */
    method HandleCloseModal()
      modifies this
      ensures !showModal && selectedTicket.None? && !showReplyForm
      ensures replyText == "" && replyStatus == DefaultReplyStatus && successMessage == ""
      ensures tickets == old(tickets) && error == old(error)
      ensures filterStatus == old(filterStatus) && filterPriority == old(filterPriority) && replyLoading == old(replyLoading)
      ensures loading == old(loading)
    {
      showModal := false;
      selectedTicket := None;
      showReplyForm := false;
      replyText := "";
      replyStatus := DefaultReplyStatus;
      successMessage := "";
    }

    /** `handleReplySubmit`, reachable only from the open detail view. A blank reply
      is refused without a call; otherwise the reply goes out, `outcome` is what the
      call threw, if anything, and on success the ticket is updated in the list and
      in the view. */
    method HandleReplySubmit(outcome: Option<Thrown>) returns (call: Option<ReplyCall>)
      requires selectedTicket.Some?
      modifies this
      ensures AllWhitespace(old(replyText)) ==>
        && call.None? && error == ReplyRequired
        && tickets == old(tickets) && selectedTicket == old(selectedTicket) && replyText == old(replyText)
        && showReplyForm == old(showReplyForm) && successMessage == old(successMessage) && replyLoading == old(replyLoading)
      ensures !AllWhitespace(old(replyText)) ==>
        && call == Some(ReplyCall(old(selectedTicket).value.id, old(replyText), old(replyStatus)))
        && !replyLoading
      ensures !AllWhitespace(old(replyText)) && outcome.None? ==>
        && tickets == ReplaceTicket(old(tickets), old(selectedTicket).value.id, old(replyText), old(replyStatus))
        && selectedTicket == Some(Replied(old(selectedTicket).value, old(replyText), old(replyStatus)))
        && error == "" && successMessage == ReplySent && !showReplyForm && replyText == ""
      ensures !AllWhitespace(old(replyText)) && outcome.Some? ==>
        && tickets == old(tickets) && selectedTicket == old(selectedTicket)
        && error == MessageOr(outcome.value, ReplyFailedFallback)
        && replyText == old(replyText) && showReplyForm == old(showReplyForm) && successMessage == old(successMessage)
      ensures replyStatus == old(replyStatus) && showModal == old(showModal)
      ensures filterStatus == old(filterStatus) && filterPriority == old(filterPriority) && loading == old(loading)
    {
      if IsBlank(replyText) {
        error := ReplyRequired;
        call := None;
      } else {
        call := SendReply(outcome);
      }
    }

    /** The part of `handleReplySubmit` after the blank check. */
    method SendReply(outcome: Option<Thrown>) returns (call: Option<ReplyCall>)
      requires selectedTicket.Some?
      modifies this
      ensures call == Some(ReplyCall(old(selectedTicket).value.id, old(replyText), old(replyStatus)))
      ensures !replyLoading
      ensures outcome.None? ==>
        && tickets == ReplaceTicket(old(tickets), old(selectedTicket).value.id, old(replyText), old(replyStatus))
        && selectedTicket == Some(Replied(old(selectedTicket).value, old(replyText), old(replyStatus)))
        && error == "" && successMessage == ReplySent && !showReplyForm && replyText == ""
      ensures outcome.Some? ==>
        && tickets == old(tickets) && selectedTicket == old(selectedTicket)
        && error == MessageOr(outcome.value, ReplyFailedFallback)
        && replyText == old(replyText) && showReplyForm == old(showReplyForm) && successMessage == old(successMessage)
      ensures replyStatus == old(replyStatus) && showModal == old(showModal)
      ensures filterStatus == old(filterStatus) && filterPriority == old(filterPriority) && loading == old(loading)
    {
      replyLoading := true;
      error := "";
      var selected := selectedTicket.value;
      call := Some(ReplyCall(selected.id, replyText, replyStatus));
      if outcome.Some? {
        error := MessageOr(outcome.value, ReplyFailedFallback);
      } else {
        tickets := ReplaceTicket(tickets, selected.id, replyText, replyStatus);
        selectedTicket := Some(Replied(selected, replyText, replyStatus));
        successMessage := ReplySent;
        showReplyForm := false;
        replyText := "";
      }
      replyLoading := false;
    }
  }
}

/**
 * `GET /api/announcements` and `POST /api/announcements`. The GET handler
 * builds its SQL text by appending clauses and binds no parameters: the
 * `limit` query parameter goes through `parseInt` and is written into the
 * text. The POST handler validates four fields, fills in defaults and inserts
 * one row.
 */
module Announcements {
  import opened Common
  import opened Store
  import opened Sql

  // ---------------------------------------------------------------------
  // GET: the listing query
  // ---------------------------------------------------------------------

  /** The listing query before any clause, with its white space collapsed. */
  const AnnouncementsSelect := "SELECT a.*, ad.name " + "as added_by_name " + "FROM announcements a " +
                               "LEFT JOIN admins ad " + "ON a.added_by = ad.id"
  const ActiveFilter := " WHERE a.is_active " + "= TRUE"
  const AnnouncementsOrder := " ORDER BY a.priority " + "DESC, a.created_at DESC"
  const LimitKeyword := " LIMIT "

  /** `active_only` is on unless the parameter is exactly `false`; a missing parameter turns it on. */
  predicate ActiveOnly(param: Option<string>)
  {
    param != Some("false")
  }

  /** The text of a `LIMIT` operand that cannot carry anything but one integer literal: an optional minus sign and digits, or `NaN`. */
  predicate SafeLimit(t: string)
  {
    t == "NaN" || (t != [] && forall i :: 0 <= i < |t| ==> IsDecimalDigit(t[i]) || (i == 0 && t[i] == '-'))
  }

  /** `${parseInt(limit)}`: the parsed integer in decimal, or `NaN` when `limit` does not start with a number. */
  function LimitText(limit: string): (t: string)
    ensures SafeLimit(t)
  {
    match ParseInt(limit)
    case None => "NaN"
    case Some(v) => IntToString(v)
  }

  /** `NaN` is written exactly when `parseInt` finds no number. */
  lemma LimitTextNaN(limit: string)
    ensures LimitText(limit) == "NaN" <==> ParseInt(limit).None?
  {
    if ParseInt(limit).Some? {
      var v := ParseInt(limit).value;
      var t := IntToString(v);
      assert t[0] == '-' || IsDecimalDigit(t[0]);
      assert t != "NaN";
    }
  }

  /** A limit sent as an integer's decimal text is written back unchanged. */
  lemma LimitOfRendered(i: int)
    ensures LimitText(IntToString(i)) == IntToString(i)
  {
    ParseIntRoundTrip(i);
  }

  lemma SafeLimitHasNoPlaceholder(t: string)
    requires SafeLimit(t)
    ensures NoPlaceholder(t)
  {
    if t == "NaN" {
      assert NoPlaceholder("NaN");
    }
  }

  lemma SelectHasNoPlaceholder()
    ensures NoPlaceholder(AnnouncementsSelect)
  {
    var c1, c2, c3, c4, c5 := "SELECT a.*, ad.name ", "as added_by_name ", "FROM announcements a ",
                              "LEFT JOIN admins ad ", "ON a.added_by = ad.id";
    assert NoPlaceholder(c1);
    assert NoPlaceholder(c2);
    assert NoPlaceholder(c3);
    assert NoPlaceholder(c4);
    assert NoPlaceholder(c5);
    NoPlaceholderConcat(c1, c2);
    NoPlaceholderConcat(c1 + c2, c3);
    NoPlaceholderConcat(c1 + c2 + c3, c4);
    NoPlaceholderConcat(c1 + c2 + c3 + c4, c5);
  }

  lemma ClausesHaveNoPlaceholder()
    ensures NoPlaceholder(ActiveFilter) && NoPlaceholder(AnnouncementsOrder) && NoPlaceholder(LimitKeyword)
  {
    var w1, w2 := " WHERE a.is_active ", "= TRUE";
    assert NoPlaceholder(w1);
    assert NoPlaceholder(w2);
    NoPlaceholderConcat(w1, w2);
    var o1, o2 := " ORDER BY a.priority ", "DESC, a.created_at DESC";
    assert NoPlaceholder(o1);
    assert NoPlaceholder(o2);
    NoPlaceholderConcat(o1, o2);
    assert NoPlaceholder(LimitKeyword);
  }

  /** The listing statement from its pieces; none of them holds a `?`, so no value is bound. */
  method BuildQuery(select: string, activeFilter: string, order: string, limitClause: string,
                    activeOnly: bool, withLimit: bool)
    returns (query: string, params: seq<string>)
    requires CountChar(select, '?') == 0 && CountChar(activeFilter, '?') == 0
    requires CountChar(order, '?') == 0 && CountChar(limitClause, '?') == 0
    ensures CountChar(query, '?') == |params| == 0
    ensures query == select + (if activeOnly then activeFilter else "") + order + (if withLimit then limitClause else "")
  {
    var st := new Statement(select);
    if activeOnly {
      st.Append(activeFilter);
    } else {
      assert st.text == st.text + "";
    }
    st.Append(order);
    if withLimit {
      st.Append(limitClause);
    } else {
      assert st.text == st.text + "";
    }
    query, params := st.text, st.params;
  }

  /** The `LIMIT` clause for a limit parameter: the keyword, then an operand that is one integer literal or `NaN`. */
  function LimitClause(limit: string): (c: string)
    ensures StartsWith(c, LimitKeyword) && SafeLimit(c[|LimitKeyword|..])
    ensures CountChar(c, '?') == 0
  {
    var t := LimitText(limit);
    KeywordThenOperand(t);
    LimitKeyword + t
  }

  /** The keyword followed by a safe operand starts with the keyword, gives the operand back, and holds no `?`. */
  lemma KeywordThenOperand(t: string)
    requires SafeLimit(t)
    ensures StartsWith(LimitKeyword + t, LimitKeyword) && (LimitKeyword + t)[|LimitKeyword|..] == t
    ensures CountChar(LimitKeyword + t, '?') == 0
  {
    assert (LimitKeyword + t)[..|LimitKeyword|] == LimitKeyword;
    SafeLimitHasNoPlaceholder(t);
    NoPlaceholderConcat(LimitKeyword, t);
    ClausesHaveNoPlaceholder();
    NoPlaceholderCount(LimitKeyword + t);
  }

  /**
   * The GET handler's query text. It is run without bind values and has no
   * `?`; it keeps only the rows with `is_active` when `active_only` is on,
   * orders by priority and then creation time, both descending, and ends in
   * a `LIMIT` clause only when `limit` is a non-empty string.
   */
  method AnnouncementsQuery(activeOnly: Option<string>, limit: Option<string>) returns (query: string)
    ensures CountChar(query, '?') == 0
    ensures query == AnnouncementsSelect + (if ActiveOnly(activeOnly) then ActiveFilter else "") + AnnouncementsOrder
                     + (if Present(limit) then LimitClause(limit.value) else "")
  {
    SelectHasNoPlaceholder();
    ClausesHaveNoPlaceholder();
    NoPlaceholderCount(AnnouncementsSelect);
    NoPlaceholderCount(ActiveFilter);
    NoPlaceholderCount(AnnouncementsOrder);
    var limitClause := if Present(limit) then LimitClause(limit.value) else "";
    var params;
    query, params := BuildQuery(AnnouncementsSelect, ActiveFilter, AnnouncementsOrder, limitClause,
                                ActiveOnly(activeOnly), Present(limit));
  }

  datatype ListReply = Listing(query: string) | ListError(error: string)

  const InternalError := "Internal server error"

  /**
   * The GET handler: `storeFails` says whether the query throws (a `NaN` or
   * negative limit is a syntax error and throws too).
   */
  method GetAnnouncements(activeOnly: Option<string>, limit: Option<string>, storeFails: bool)
    returns (reply: ListReply)
    ensures storeFails <==> reply == ListError(InternalError)
    ensures reply.Listing? ==> CountChar(reply.query, '?') == 0
  {
    var query := AnnouncementsQuery(activeOnly, limit);
    if storeFails {
      return ListError(InternalError);
    }
    reply := Listing(query);
  }

  /**
   * The position of a priority in the column's `ENUM('low', 'medium', 'high',
   * 'urgent')`, which is what `ORDER BY` compares; 0 for the empty value
   * MySQL stores for a value outside the list.
   */
  function PriorityRank(p: string): (r: nat)
    ensures r <= 4
    ensures r == 0 <==> p !in {"low", "medium", "high", "urgent"}
  {
    if p == "low" then 1 else if p == "medium" then 2 else if p == "high" then 3 else if p == "urgent" then 4 else 0
  }

  /** Descending priority lists urgent, then high, then medium, then low. */
  lemma DescendingPriorityOrder()
    ensures PriorityRank("urgent") > PriorityRank("high") > PriorityRank("medium") > PriorityRank("low") > 0
  {
  }

  // ---------------------------------------------------------------------
  // POST
  // ---------------------------------------------------------------------

  datatype AnnouncementBody = AnnouncementBody(
    titleAr: Option<string>, titleEn: Option<string>, contentAr: Option<string>, contentEn: Option<string>,
    priority: Option<string>, announcementType: Option<string>, addedBy: Option<string>)

  datatype CreateReply = Created(id: int) | BadRequest(error: string) | ServerError(error: string)
  {
    function Status(): int
    {
      match this
      case Created(_) => 201
      case BadRequest(_) => 400
      case ServerError(_) => 500
    }
  }

  const RequiredMessage := "All title and content fields are required"
  const DefaultPriority := "medium"
  const DefaultType := "general"

  predicate Complete(b: AnnouncementBody)
  {
    Present(b.titleAr) && Present(b.titleEn) && Present(b.contentAr) && Present(b.contentEn)
  }

  /** `value || fallback`: a sent non-empty value, else the fallback. */
  function WithDefault(value: Option<string>, fallback: string): (r: string)
    ensures Present(value) ==> r == value.value
    ensures !Present(value) ==> r == fallback
  {
    OrElse(value, Some(fallback)).value
  }

  /** The row the insert stores: defaults applied, `is_active` left to its column default. */
  function NewAnnouncement(id: int, b: AnnouncementBody): (a: Announcement)
    requires Complete(b)
    ensures a.id == id && a.isActive && a.addedBy == b.addedBy
    ensures Some(a.titleAr) == b.titleAr && Some(a.titleEn) == b.titleEn
    ensures Some(a.contentAr) == b.contentAr && Some(a.contentEn) == b.contentEn
    ensures a.priority == WithDefault(b.priority, DefaultPriority)
    ensures a.announcementType == WithDefault(b.announcementType, DefaultType)
  {
    Announcement(id, b.titleAr.value, b.titleEn.value, b.contentAr.value, b.contentEn.value,
                 WithDefault(b.priority, DefaultPriority), WithDefault(b.announcementType, DefaultType), true, b.addedBy)
  }

  /** Without a sent priority the stored one is `medium`, which ranks between high and low. */
  lemma DefaultPriorityRank(b: AnnouncementBody)
    requires Complete(b) && !Present(b.priority)
    ensures PriorityRank(NewAnnouncement(0, b).priority) == 2
  {
  }

  /**
   * The POST handler. `body` is `None` when the request body is not JSON;
   * `insertFails` says whether the insert throws.
   */
  method PostAnnouncement(db: Database, body: Option<AnnouncementBody>, insertFails: bool) returns (reply: CreateReply)
    modifies db`announcements, db`nextAnnouncementId
    ensures body.None? ==> reply == ServerError(InternalError)
    ensures body.Some? && !Complete(body.value) ==> reply == BadRequest(RequiredMessage)
    ensures reply.BadRequest? <==> body.Some? && !Complete(body.value)
    ensures reply.Created? <==> body.Some? && Complete(body.value) && !insertFails
    ensures reply.ServerError? ==> reply.error == InternalError
    ensures reply.Created? ==>
      && reply.id == old(db.nextAnnouncementId)
      && db.announcements == old(db.announcements) + [NewAnnouncement(reply.id, body.value)]
      && db.nextAnnouncementId == old(db.nextAnnouncementId) + 1
    ensures !reply.Created? ==>
      db.announcements == old(db.announcements) && db.nextAnnouncementId == old(db.nextAnnouncementId)
  {
    if body.None? {
      return ServerError(InternalError);
    }
    var b := body.value;
    if !Complete(b) {
      return BadRequest(RequiredMessage);
    }
    if insertFails {
      return ServerError(InternalError);
    }
    var id := db.nextAnnouncementId;
    db.announcements := db.announcements + [NewAnnouncement(id, b)];
    db.nextAnnouncementId := id + 1;
    reply := Created(id);
  }
}

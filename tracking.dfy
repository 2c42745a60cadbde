/**
 * The event tracker (src/hooks/useAnalytics.ts): each tracked event is one
 * insert into the remote, append-only `analytics` table. Whether the backend
 * accepts the insert, the browser's user agent and the `created_at` time the
 * database assigns are parameters.
 */
module UseAnalytics {
  import opened Wrappers

  datatype EventType = PageView | ButtonClick

  /** The optional `event_data` payload fields. */
  datatype EventData = EventData(buttonTitle: Option<string>, buttonHref: Option<string>, pagePath: Option<string>)

  /** A row of the `analytics` table. */
  datatype EventRow = EventRow(eventType: EventType, eventData: EventData, userAgent: string,
                               ipAddress: Option<string>, createdAt: nat)

  /** `{ button_title, button_href }` */
  function ClickData(title: string, href: string): EventData {
    EventData(Some(title), Some(href), None)
  }

  /** `{ page_path }` */
  function PageData(path: string): EventData {
    EventData(None, None, Some(path))
  }

  /** The page path a page view records: `'/'` when no argument is given. */
  function PagePathOrRoot(path: Option<string>): (p: string)
    ensures path.None? ==> p == "/"
    ensures path.Some? ==> p == path.value
  {
    path.GetOr("/")
  }

  /** The row an insert adds: the IP address is left null for the backend to fill in. */
  function NewRow(eventType: EventType, data: EventData, userAgent: string, now: nat): (r: EventRow)
    ensures r.eventType == eventType && r.eventData == data && r.userAgent == userAgent
    ensures r.ipAddress.None? && r.createdAt == now
  {
    EventRow(eventType, data, userAgent, None, now)
  }

  /** The remote `analytics` table. */
  class AnalyticsTable {
    var rows: seq<EventRow>

    constructor (rows: seq<EventRow>)
      ensures this.rows == rows
    {
      this.rows := rows;
    }
  }

  /** `trackEvent`: one insert; a rejected or failed insert is swallowed and adds nothing. */
  method TrackEvent(table: AnalyticsTable, eventType: EventType, data: EventData,
                    userAgent: string, accepted: bool, now: nat)
    modifies table
    ensures table.rows == old(table.rows) + if accepted then [NewRow(eventType, data, userAgent, now)] else []
  {
    if accepted {
      table.rows := table.rows + [NewRow(eventType, data, userAgent, now)];
    }
  }

  /** `trackPageView(page_path = '/')` */
  method TrackPageView(table: AnalyticsTable, path: Option<string>, userAgent: string, accepted: bool, now: nat)
    modifies table
    ensures table.rows == old(table.rows)
      + if accepted then [NewRow(PageView, PageData(PagePathOrRoot(path)), userAgent, now)] else []
  {
    TrackEvent(table, PageView, PageData(PagePathOrRoot(path)), userAgent, accepted, now);
  }

  /** `trackButtonClick(button_title, button_href)` */
  method TrackButtonClick(table: AnalyticsTable, title: string, href: string, userAgent: string, accepted: bool, now: nat)
    modifies table
    ensures table.rows == old(table.rows)
      + if accepted then [NewRow(ButtonClick, ClickData(title, href), userAgent, now)] else []
  {
    TrackEvent(table, ButtonClick, ClickData(title, href), userAgent, accepted, now);
  }

  /** `usePageView(page_path = '/')`: the page view its effect records when the page mounts. */
  method UsePageView(table: AnalyticsTable, path: Option<string>, userAgent: string, accepted: bool, now: nat)
    modifies table
    ensures table.rows == old(table.rows)
      + if accepted then [NewRow(PageView, PageData(PagePathOrRoot(path)), userAgent, now)] else []
  {
    TrackPageView(table, Some(PagePathOrRoot(path)), userAgent, accepted, now);
  }
}

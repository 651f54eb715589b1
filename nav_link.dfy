/**
 * Navigation-link styling (app/components/shared/NavLink.tsx).
 *
 * A link is styled from four inputs: the current `pathname`, the link's
 * `href`, the path currently hovered in the bar (`hoveredPath`, possibly
 * `null` or `undefined`) and the variant. A class attribute is modelled as
 * the sequence of its space-separated class tokens.
 */
module NavLink {
  import opened Wrappers

  datatype Variant = Desktop | Mobile

  /** The five class choices of the component: three desktop and two mobile. */
  datatype Style = DesktopBorder | DesktopActive | DesktopIdle | MobileActive | MobileIdle

  /** `!hoveredPath`: `null`, `undefined` and the empty string are all falsy. */
  predicate Falsy(hoveredPath: Option<string>) {
    hoveredPath.None? || hoveredPath.value == ""
  }

  /** `showBorder = isHovered || (isActive && !hoveredPath)` of the desktop variant. */
  predicate ShowBorder(pathname: string, href: string, hoveredPath: Option<string>) {
    hoveredPath == Some(href) || (pathname == href && Falsy(hoveredPath))
  }

  /** The nested ternaries that pick a link's style. */
  function Classify(pathname: string, href: string, hoveredPath: Option<string>, variant: Variant): (s: Style)
    ensures variant == Mobile ==> (s == MobileActive <==> pathname == href) && (s == MobileActive || s == MobileIdle)
    ensures variant == Desktop ==> (s == DesktopBorder <==> ShowBorder(pathname, href, hoveredPath))
    ensures variant == Desktop ==> (s == DesktopActive <==> !ShowBorder(pathname, href, hoveredPath) && pathname == href)
    ensures variant == Desktop ==> (s == DesktopIdle <==> !ShowBorder(pathname, href, hoveredPath) && pathname != href)
  {
    var isActive := pathname == href;
    match variant
    case Desktop =>
      if ShowBorder(pathname, href, hoveredPath) then DesktopBorder
      else if isActive then DesktopActive
      else DesktopIdle
    case Mobile =>
      if isActive then MobileActive else MobileIdle
  }

  const DesktopBase: seq<string> :=
    ["px-4", "h-full", "flex", "items-center", "hover:text-blue-600", "dark:hover:text-blue-400",
     "transition-colors", "duration-200", "font-medium", "border-b-2"]

  const MobileBase: seq<string> := ["block", "px-4", "py-3", "rounded-lg", "transition-colors"]

  /** The class tokens of each style: the variant's base classes followed by the chosen branch. */
  function StyleTokens(s: Style): seq<string> {
    match s
    case DesktopBorder =>
      DesktopBase + ["text-blue-600", "dark:text-blue-400", "border-blue-600", "dark:border-blue-400"]
    case DesktopActive =>
      DesktopBase + ["text-blue-600", "dark:text-blue-400", "border-transparent"]
    case DesktopIdle =>
      DesktopBase + ["text-gray-700", "dark:text-gray-200", "border-transparent"]
    case MobileActive =>
      MobileBase + ["bg-blue-50", "dark:bg-blue-900/20", "text-blue-600", "dark:text-blue-400", "font-semibold"]
    case MobileIdle =>
      MobileBase + ["text-gray-700", "dark:text-gray-200", "hover:bg-gray-100", "dark:hover:bg-gray-800"]
  }

  /** The classes the component's tests look for, present or absent in a token list. */
  datatype Observed = Observed(blueText: bool, grayText: bool, blueBorder: bool,
                               transparentBorder: bool, blueBackground: bool, semibold: bool)

  function Observe(r: seq<string>): Observed {
    Observed("text-blue-600" in r, "text-gray-700" in r, "border-blue-600" in r,
             "border-transparent" in r, "bg-blue-50" in r, "font-semibold" in r)
  }

  /** What each style shows of the observed classes. */
  lemma ObserveStyle(s: Style)
    ensures Observe(StyleTokens(s)).blueText <==> s in {DesktopBorder, DesktopActive, MobileActive}
    ensures Observe(StyleTokens(s)).grayText <==> s in {DesktopIdle, MobileIdle}
    ensures Observe(StyleTokens(s)).blueBorder <==> s == DesktopBorder
    ensures Observe(StyleTokens(s)).transparentBorder <==> s in {DesktopActive, DesktopIdle}
    ensures Observe(StyleTokens(s)).blueBackground <==> s == MobileActive
    ensures Observe(StyleTokens(s)).semibold <==> s == MobileActive
  {
    match s
    case DesktopBorder => ObserveDesktopBorder();
    case DesktopActive => ObserveDesktopActive();
    case DesktopIdle => ObserveDesktopIdle();
    case MobileActive => ObserveMobileActive();
    case MobileIdle => ObserveMobileIdle();
  }

  lemma ObserveDesktopBorder()
    ensures Observe(StyleTokens(DesktopBorder)) == Observed(true, false, true, false, false, false)
  {
  }

  lemma ObserveDesktopActive()
    ensures Observe(StyleTokens(DesktopActive)) == Observed(true, false, false, true, false, false)
  {
  }

  lemma ObserveDesktopIdle()
    ensures Observe(StyleTokens(DesktopIdle)) == Observed(false, true, false, true, false, false)
  {
  }

  lemma ObserveMobileActive()
    ensures Observe(StyleTokens(MobileActive)) == Observed(true, false, false, false, true, true)
  {
  }

  lemma ObserveMobileIdle()
    ensures Observe(StyleTokens(MobileIdle)) == Observed(false, true, false, false, false, false)
  {
  }

  /**
   * The class tokens a link renders with. On desktop the text is blue iff
   * the link is the current page or the hovered one, the bottom border is
   * blue exactly when `showBorder` holds and transparent otherwise; on
   * mobile only whether the link is the current page matters.
   */
  function ClassTokens(pathname: string, href: string, hoveredPath: Option<string>, variant: Variant): (r: seq<string>)
    ensures variant == Desktop ==>
              ("text-blue-600" in r <==> pathname == href || hoveredPath == Some(href))
    ensures variant == Desktop ==> ("text-gray-700" in r <==> !("text-blue-600" in r))
    ensures variant == Desktop ==>
              ("border-blue-600" in r <==> ShowBorder(pathname, href, hoveredPath))
    ensures variant == Desktop ==> ("border-transparent" in r <==> !("border-blue-600" in r))
    ensures variant == Mobile ==> ("bg-blue-50" in r <==> pathname == href)
    ensures variant == Mobile ==> ("font-semibold" in r <==> pathname == href)
    ensures variant == Mobile ==> ("text-gray-700" in r <==> pathname != href)
    ensures variant == Mobile ==> "border-blue-600" !in r && "border-transparent" !in r
  {
    ObserveStyle(Classify(pathname, href, hoveredPath, variant));
    StyleTokens(Classify(pathname, href, hoveredPath, variant))
  }

  /** On mobile the hovered path plays no part in the styling. */
  lemma MobileIgnoresHover(pathname: string, href: string, h1: Option<string>, h2: Option<string>)
    ensures ClassTokens(pathname, href, h1, Mobile) == ClassTokens(pathname, href, h2, Mobile)
  {
  }

  /** A current-page link loses its border while a different, non-empty path is hovered. */
  lemma ActiveLosesBorderWhenOtherHovered(path: string, other: string)
    requires other != path && other != ""
    ensures Classify(path, path, Some(other), Desktop) == DesktopActive
    ensures Classify(path, path, None, Desktop) == DesktopBorder
  {
  }

  /** A link to another page gains the border exactly while it is the hovered path. */
  lemma InactiveGainsBorderWhenHovered(pathname: string, href: string, hoveredPath: Option<string>)
    requires pathname != href
    ensures Classify(pathname, href, hoveredPath, Desktop) == DesktopBorder <==> hoveredPath == Some(href)
  {
  }

  /** The six cases the component's test file pins down. */
  lemma DocumentedCases()
    ensures var r := ClassTokens("/", "/", None, Desktop);
            "text-blue-600" in r && "border-blue-600" in r
    ensures var r := ClassTokens("/", "/", Some("/contact"), Desktop);
            "text-blue-600" in r && "border-transparent" in r
    ensures var r := ClassTokens("/", "/projects", None, Desktop);
            "text-gray-700" in r && "border-transparent" in r
    ensures var r := ClassTokens("/", "/projects", Some("/projects"), Desktop);
            "text-blue-600" in r && "border-blue-600" in r
    ensures var r := ClassTokens("/", "/", None, Mobile);
            "bg-blue-50" in r && "font-semibold" in r
    ensures "text-gray-700" in ClassTokens("/", "/projects", None, Mobile)
  {
  }
}

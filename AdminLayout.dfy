/** The layout every admin route renders inside: it waits for the session,
    sends a visitor without one to the sign-in page, and otherwise renders the
    sidebar, the navbar and the routed page. */
module AdminLayout {
  import LoginPage

  const LoginPath := "/login"

  /** The three things the layout can render. */
  datatype GateView = Skeleton | Redirect(path: string, replace: bool) | Shell

  /** The skeleton while the session loads, whatever it will say; then a
      replacing redirect to the sign-in page without a session, and the shell with one. */
  function Gate(isLoading: bool, isAuthenticated: bool): (v: GateView)
    ensures v.Skeleton? <==> isLoading
    ensures v.Redirect? <==> !isLoading && !isAuthenticated
    ensures v.Shell? <==> !isLoading && isAuthenticated
    ensures v.Redirect? ==> v.path == LoginPath && v.replace
  {
    if isLoading then Skeleton
    else if !isAuthenticated then Redirect(LoginPath, true)
    else Shell
  }

  /** The layout and the sign-in page never send a visitor back and forth:
      for any settled session, a visitor the layout sends to the sign-in page
      sees its form, and one the sign-in page sends to the dashboard gets the shell. */
  lemma NoRedirectLoop(isAuthenticated: bool)
    ensures Gate(false, isAuthenticated).Redirect? ==> LoginPage.Render(isAuthenticated) == LoginPage.ShowForm
    ensures LoginPage.Render(isAuthenticated).RedirectTo? ==> Gate(false, isAuthenticated) == Shell
  {
  }
}

/** Facts relating the two screens to each other. */
module Screens {
  import Registration
  import Login

  /** Both screens judge an e-mail and a password the same way: the same fields
      fail, with the same messages. */
  lemma SameEmailAndPasswordRules(r: Registration.Form, l: Login.Form)
    requires r.email == l.email && r.password == l.password
    ensures Registration.Email in Registration.Errors(r) <==> Login.Email in Login.Errors(l)
    ensures Registration.Password in Registration.Errors(r) <==> Login.Password in Login.Errors(l)
    ensures Registration.Email in Registration.Errors(r) ==>
      Registration.Errors(r)[Registration.Email] == Login.Errors(l)[Login.Email]
    ensures Registration.Password in Registration.Errors(r) ==>
      Registration.Errors(r)[Registration.Password] == Login.Errors(l)[Login.Password]
  {
  }
}
